/** Any number of relays, the Outbox table and the broker, interleaved statement by
    statement. Clocks may disagree but run at one rate; a relay may stop at any point. */
module OutboxProtocol {
  import opened OutboxTable

  const MILLISECOND := 1_000_000

  /** Clock offsets are relative to global time; durations are in nanoseconds. */
  datatype Config = Config(lease: int, publishTimeout: int, maxPayload: int, clock: map<string, int>, dbClock: int)

  /** OutboxConfig.validate, as far as the protocol depends on it. */
  predicate Sound(cfg: Config) {
    cfg.publishTimeout > 0 && cfg.lease >= 4 * cfg.publishTimeout && cfg.maxPayload >= 1
  }

  function MaxPublish(cfg: Config): int {
    2 * cfg.publishTimeout
  }

  /** lease.Milliseconds(): the statement takes whole milliseconds. */
  function LeaseMillis(cfg: Config): int {
    cfg.lease / MILLISECOND
  }

  /** term.check. */
  predicate Accepts(cfg: Config, id: EventId, e: Event) {
    Valid(id, e) && |e.payload| <= cfg.maxPayload
  }

  /** Where one relay is inside its cycle. */
  datatype PC =
    | Idle
    | Ready
    | Claiming(deadline: int)
    | Batch(rest: seq<EventId>, deadline: int)
    | Publishing(row: EventId, rest: seq<EventId>, deadline: int, checkedAt: int)
    | Confirmed(row: EventId, rest: seq<EventId>, deadline: int)
    | Rejected(row: EventId, rest: seq<EventId>, deadline: int)
    | Releasing(ids: seq<EventId>)

  datatype Relay = Relay(recovered: bool, pc: PC)

  /** One statement of a relay. A database call that reports an error may still have
      been applied; a publish that reports an error may still have been delivered. */
  datatype Act =
    | Recover(ok: bool, applied: bool)
    | DeclareFails
    | Stamp
    | Claim(ids: seq<EventId>, ok: bool)
    | GiveUp
    | Reject
    | StartPublish
    | PublishReturns(ok: bool)
    | Mark(ok: bool, applied: bool)
    | MarkBad(ok: bool, applied: bool, reason: string)
    | Release(ok: bool, applied: bool, at: int)
    | Finish
    | Stop

  datatype Action =
    | Tick(dt: int)
    | Append(id: EventId, e: Event)
    | Cleanup(ids: set<EventId>)
    | Run(relay: string, act: Act)

  /** The table, the relays, the clock, and the history of every event: what was
      appended, what the broker confirmed, and what cleanup removed. A lost row was taken
      by a claim that reported an error, and no recovery has taken it back since. */
  datatype Sys = Sys(
    rows: Rows, relays: map<string, Relay>, now: int,
    appended: map<EventId, Event>, confirmed: set<EventId>, deleted: set<EventId>, lost: set<(string, EventId)>)

  datatype Effect = Effect(rows: Rows, relay: Relay, confirmed: set<EventId>)

  function DbNow(cfg: Config, now: int): int {
    now + cfg.dbClock
  }

  /** When a lease taken now runs out. */
  function LeaseEnd(cfg: Config, now: int): int {
    DbNow(cfg, now) + LeaseMillis(cfg) * MILLISECOND
  }

  function Local(cfg: Config, r: string, now: int): int {
    now + if r in cfg.clock then cfg.clock[r] else 0
  }

  /** By the relay's own clock a whole publish fits before the deadline. */
  predicate TimeLeft(cfg: Config, r: string, now: int, deadline: int) {
    deadline - Local(cfg, r, now) >= MaxPublish(cfg)
  }

  /** A relay judges an event as it has read it, and events never change. */
  predicate Sends(cfg: Config, appended: map<EventId, Event>, id: EventId) {
    id in appended && Accepts(cfg, id, appended[id])
  }

  predicate CanAct(cfg: Config, rows: Rows, appended: map<EventId, Event>, relay: Relay, r: string, now: int,
                   act: Act) {
    match act
    case Recover(ok, applied) => relay.pc.Idle? && (ok ==> applied)
    case DeclareFails => relay.pc.Ready?
    case Stamp => relay.pc.Ready?
    case Claim(ids, ok) =>
      && relay.pc.Claiming?
      && (forall i, j :: 0 <= i < j < |ids| ==> ids[i] != ids[j])
      && (forall id :: id in ids ==> id in rows && Due(rows[id], DbNow(cfg, now)))
    case GiveUp => relay.pc.Batch? && relay.pc.rest != []
    case Reject =>
      && relay.pc.Batch? && relay.pc.rest != [] && TimeLeft(cfg, r, now, relay.pc.deadline)
      && relay.pc.rest[0] in appended && !Sends(cfg, appended, relay.pc.rest[0])
    case StartPublish =>
      && relay.pc.Batch? && relay.pc.rest != [] && TimeLeft(cfg, r, now, relay.pc.deadline)
      && Sends(cfg, appended, relay.pc.rest[0])
    case PublishReturns(_) => relay.pc.Publishing?
    case Mark(ok, applied) => relay.pc.Confirmed? && (ok ==> applied)
    case MarkBad(ok, applied, _) => relay.pc.Rejected? && (ok ==> applied)
    case Release(ok, applied, _) => relay.pc.Releasing? && (ok ==> applied)
    case Finish => relay.pc.Batch? && relay.pc.rest == []
    case Stop => true
  }

  /** A recorded result moves on to the next row; a lost lease or an unknown outcome
      ends the batch and asks for the recovery of the relay's own leases. */
  function AfterMark(rows: Rows, relay: Relay, r: string, row: EventId, rest: seq<EventId>, deadline: int,
                     ok: bool): Relay {
    if ok && row in rows && LeasedTo(rows[row], r) then relay.(pc := Batch(rest, deadline))
    else Relay(false, Releasing(rest))
  }

  function Acted(cfg: Config, rows: Rows, appended: map<EventId, Event>, relay: Relay, r: string, now: int,
                 act: Act): Effect
    requires CanAct(cfg, rows, appended, relay, r, now, act)
  {
    var pc := relay.pc;
    match act
    case Recover(ok, applied) =>
      Effect(if applied then Recovered(rows, DbNow(cfg, now), r, !relay.recovered) else rows,
             if ok then Relay(true, Ready) else relay, {})
    case DeclareFails => Effect(rows, relay.(pc := Idle), {})
    case Stamp => Effect(rows, relay.(pc := Claiming(Local(cfg, r, now) + cfg.lease)), {})
    case Claim(ids, ok) =>
      Effect(Claimed(rows, ids, r, LeaseEnd(cfg, now)),
             relay.(pc := if ok then Batch(ids, pc.deadline) else Idle), {})
    case GiveUp => Effect(rows, relay.(pc := Releasing(pc.rest)), {})
    case Reject => Effect(rows, relay.(pc := Rejected(pc.rest[0], pc.rest[1..], pc.deadline)), {})
    case StartPublish => Effect(rows, relay.(pc := Publishing(pc.rest[0], pc.rest[1..], pc.deadline, now)), {})
    case PublishReturns(ok) =>
      if ok then Effect(rows, relay.(pc := Confirmed(pc.row, pc.rest, pc.deadline)), {pc.row})
      else Effect(rows, relay.(pc := Releasing([pc.row] + pc.rest)), {})
    case Mark(ok, applied) =>
      Effect(if applied then MarkedPublished(rows, r, pc.row, DbNow(cfg, now)) else rows,
             AfterMark(rows, relay, r, pc.row, pc.rest, pc.deadline, ok), {})
    case MarkBad(ok, applied, reason) =>
      Effect(if applied then MarkedFailed(rows, r, pc.row, reason) else rows,
             AfterMark(rows, relay, r, pc.row, pc.rest, pc.deadline, ok), {})
    case Release(ok, applied, at) =>
      Effect(if applied then Released(rows, r, pc.ids, at) else rows,
             Relay(relay.recovered && (ok || pc.ids == []), Idle), {})
    case Finish => Effect(rows, relay.(pc := Idle), {})
    case Stop => Effect(rows, Relay(false, Idle), {})
  }

  predicate Enabled(cfg: Config, s: Sys, a: Action) {
    match a
    case Tick(dt) =>
      // A publish ends within its bound, counted from the check of the deadline.
      && dt >= 0
      && forall r :: r in s.relays && s.relays[r].pc.Publishing? ==>
           s.now + dt <= s.relays[r].pc.checkedAt + MaxPublish(cfg)
    case Append(id, e) => Valid(id, e) && id !in s.appended && id !in s.rows
    case Cleanup(ids) => forall id :: id in ids ==> id in s.rows && s.rows[id].state.Published?
    case Run(r, act) => r in s.relays && CanAct(cfg, s.rows, s.appended, s.relays[r], r, s.now, act)
  }

  function Next(cfg: Config, s: Sys, a: Action): Sys
    requires Enabled(cfg, s, a)
  {
    match a
    case Tick(dt) => s.(now := s.now + dt)
    case Append(id, e) =>
      if Duplicate(s.rows, e) then s
      else s.(rows := Appended(s.rows, id, e, DbNow(cfg, s.now)), appended := s.appended[id := e])
    case Cleanup(ids) => s.(rows := Without(s.rows, ids), deleted := s.deleted + ids)
    case Run(r, act) =>
      var e := Acted(cfg, s.rows, s.appended, s.relays[r], r, s.now, act);
      s.(rows := e.rows, relays := s.relays[r := e.relay],
         confirmed := s.confirmed + e.confirmed, lost := LostAfter(cfg, s, r, act))
  }

  function LostAfter(cfg: Config, s: Sys, r: string, act: Act): set<(string, EventId)>
    requires r in s.relays
  {
    match act
    case Claim(ids, ok) => if ok then s.lost else s.lost + (set id | id in ids :: (r, id))
    case Recover(_, applied) => if applied then set x | x in s.lost && !TakenBack(cfg, s, r, x.1) else s.lost
    case _ => s.lost
  }

  predicate TakenBack(cfg: Config, s: Sys, r: string, id: EventId)
    requires r in s.relays
  {
    id in s.rows && Recoverable(s.rows[id], DbNow(cfg, s.now), r, !s.relays[r].recovered)
  }

  predicate Initial(s: Sys) {
    && s.rows == map[] && s.appended == map[] && s.confirmed == {} && s.deleted == {} && s.lost == {}
    && forall r :: r in s.relays ==> s.relays[r] == Relay(false, Idle)
  }

  /** The states a run goes through, when every action is possible where it happens. */
  predicate Possible(cfg: Config, s: Sys, run: seq<Action>)
    decreases run
  {
    run == [] || (Enabled(cfg, s, run[0]) && Possible(cfg, Next(cfg, s, run[0]), run[1..]))
  }

  function After(cfg: Config, s: Sys, run: seq<Action>): Sys
    requires Possible(cfg, s, run)
    decreases run
  {
    if run == [] then s else After(cfg, Next(cfg, s, run[0]), run[1..])
  }

  // ---------------------------------------------------------------------------
  // Timed lease exclusion.

  /** The rows a relay may still send, with the lease it took them under. */
  function Held(pc: PC): seq<EventId> {
    match pc
    case Batch(rest, _) => rest
    case Publishing(row, rest, _, _) => [row] + rest
    case Confirmed(row, rest, _) => rest
    case Rejected(row, rest, _) => rest
    case _ => []
  }

  ghost predicate AllDistinct(ids: seq<EventId>) {
    forall i, j :: 0 <= i < j < |ids| ==> ids[i] != ids[j]
  }

  ghost function HasDeadline(pc: PC): bool {
    pc.Claiming? || pc.Batch? || pc.Publishing? || pc.Confirmed? || pc.Rejected?
  }

  /** The deadline of the relay in global time. */
  ghost function Ends(cfg: Config, r: string, pc: PC): int
    requires HasDeadline(pc)
  {
    pc.deadline - Local(cfg, r, 0)
  }

  /** The row is leased to r at least until the given global time. */
  ghost predicate Guarded(cfg: Config, rows: Rows, r: string, id: EventId, until: int) {
    id in rows && LeasedTo(rows[id], r) && rows[id].state.until >= until + cfg.dbClock
  }

  ghost predicate Leases(cfg: Config, rows: Rows, r: string, pc: PC, now: int) {
    && AllDistinct(Held(pc))
    && (pc.Confirmed? || pc.Rejected? ==> pc.row !in pc.rest)
    && (pc.Claiming? ==> Ends(cfg, r, pc) <= now + cfg.lease)
    && (pc.Publishing? ==> pc.checkedAt <= now <= pc.checkedAt + MaxPublish(cfg) <= Ends(cfg, r, pc))
    && (HasDeadline(pc) && now <= Ends(cfg, r, pc) ==>
          forall id :: id in Held(pc) ==> Guarded(cfg, rows, r, id, Ends(cfg, r, pc)))
  }

  ghost predicate AllLeases(cfg: Config, s: Sys) {
    forall r :: r in s.relays ==> Leases(cfg, s.rows, r, s.relays[r].pc, s.now)
  }

  /** No statement of one relay touches a lease of another that has not run out. */
  lemma OthersUntouched(cfg: Config, rows: Rows, appended: map<EventId, Event>, relay: Relay, r: string, now: int,
                        act: Act, id: EventId, other: string)
    requires CanAct(cfg, rows, appended, relay, r, now, act) && other != r
    requires id in rows && LeasedTo(rows[id], other) && rows[id].state.until >= DbNow(cfg, now)
    ensures id in Acted(cfg, rows, appended, relay, r, now, act).rows
    ensures Acted(cfg, rows, appended, relay, r, now, act).rows[id] == rows[id]
  {
  }

  lemma LeasesOfOthers(cfg: Config, s: Sys, r: string, act: Act, other: string)
    requires AllLeases(cfg, s) && Enabled(cfg, s, Run(r, act)) && other in s.relays && other != r
    ensures Leases(cfg, Next(cfg, s, Run(r, act)).rows, other, s.relays[other].pc, s.now)
  {
    var pc := s.relays[other].pc;
    assert Leases(cfg, s.rows, other, pc, s.now);
    if HasDeadline(pc) && s.now <= Ends(cfg, other, pc) {
      forall id | id in Held(pc) ensures Guarded(cfg, Next(cfg, s, Run(r, act)).rows, other, id, Ends(cfg, other, pc)) {
        assert Guarded(cfg, s.rows, other, id, Ends(cfg, other, pc));
        OthersUntouched(cfg, s.rows, s.appended, s.relays[r], r, s.now, act, id, other);
      }
    }
  }

  /** With a whole number of milliseconds the claim lasts as long as the deadline. */
  lemma OwnClaim(cfg: Config, rows: Rows, appended: map<EventId, Event>, relay: Relay, r: string, now: int,
                 ids: seq<EventId>, ok: bool)
    requires cfg.lease % MILLISECOND == 0 && CanAct(cfg, rows, appended, relay, r, now, Claim(ids, ok))
    requires Leases(cfg, rows, r, relay.pc, now)
    ensures var e := Acted(cfg, rows, appended, relay, r, now, Claim(ids, ok)); Leases(cfg, e.rows, r, e.relay.pc, now)
  {
    assert LeaseMillis(cfg) * MILLISECOND == cfg.lease;
  }

  lemma OwnMark(cfg: Config, rows: Rows, appended: map<EventId, Event>, relay: Relay, r: string, now: int, act: Act)
    requires act.Mark? || act.MarkBad?
    requires CanAct(cfg, rows, appended, relay, r, now, act) && Leases(cfg, rows, r, relay.pc, now)
    ensures var e := Acted(cfg, rows, appended, relay, r, now, act); Leases(cfg, e.rows, r, e.relay.pc, now)
  {
    var e := Acted(cfg, rows, appended, relay, r, now, act);
    if e.relay.pc.Batch? && now <= Ends(cfg, r, relay.pc) {
      forall id | id in relay.pc.rest ensures Guarded(cfg, e.rows, r, id, Ends(cfg, r, relay.pc)) {
        assert Guarded(cfg, rows, r, id, Ends(cfg, r, relay.pc));
      }
    }
  }

  lemma OwnSend(cfg: Config, rows: Rows, appended: map<EventId, Event>, relay: Relay, r: string, now: int, act: Act)
    requires act.GiveUp? || act.Reject? || act.StartPublish?
    requires CanAct(cfg, rows, appended, relay, r, now, act) && Leases(cfg, rows, r, relay.pc, now)
    requires cfg.publishTimeout >= 0
    ensures var e := Acted(cfg, rows, appended, relay, r, now, act); Leases(cfg, e.rows, r, e.relay.pc, now)
  {
    assert relay.pc.rest == [relay.pc.rest[0]] + relay.pc.rest[1..];
    var e := Acted(cfg, rows, appended, relay, r, now, act);
    if HasDeadline(e.relay.pc) && now <= Ends(cfg, r, e.relay.pc) {
      forall id | id in Held(e.relay.pc) ensures Guarded(cfg, e.rows, r, id, Ends(cfg, r, e.relay.pc)) {
        assert id in Held(relay.pc);
        assert Guarded(cfg, rows, r, id, Ends(cfg, r, relay.pc));
      }
    }
  }

  lemma OwnReturn(cfg: Config, rows: Rows, appended: map<EventId, Event>, relay: Relay, r: string, now: int, ok: bool)
    requires relay.pc.Publishing? && Leases(cfg, rows, r, relay.pc, now)
    ensures var e := Acted(cfg, rows, appended, relay, r, now, PublishReturns(ok));
            Leases(cfg, e.rows, r, e.relay.pc, now)
  {
    var held := Held(relay.pc);
    assert held[0] == relay.pc.row;
    assert forall i :: 0 <= i < |relay.pc.rest| ==> relay.pc.rest[i] == held[i + 1];
  }

  lemma LeasesKept(cfg: Config, s: Sys, a: Action)
    requires cfg.lease % MILLISECOND == 0 && cfg.publishTimeout >= 0
    requires AllLeases(cfg, s) && Enabled(cfg, s, a)
    ensures AllLeases(cfg, Next(cfg, s, a))
  {
    var next := Next(cfg, s, a);
    forall r | r in next.relays ensures Leases(cfg, next.rows, r, next.relays[r].pc, next.now) {
      assert Leases(cfg, s.rows, r, s.relays[r].pc, s.now);
      match a
      case Tick(_) =>
      case Append(id, e) =>
      case Cleanup(ids) =>
      case Run(who, act) =>
        if who != r {
          LeasesOfOthers(cfg, s, who, act, r);
        } else {
          OwnLeases(cfg, s.rows, s.appended, s.relays[r], r, s.now, act);
        }
    }
  }

  lemma OwnLeases(cfg: Config, rows: Rows, appended: map<EventId, Event>, relay: Relay, r: string, now: int, act: Act)
    requires cfg.lease % MILLISECOND == 0 && cfg.publishTimeout >= 0
    requires CanAct(cfg, rows, appended, relay, r, now, act) && Leases(cfg, rows, r, relay.pc, now)
    ensures var e := Acted(cfg, rows, appended, relay, r, now, act); Leases(cfg, e.rows, r, e.relay.pc, now)
  {
    match act
    case Claim(ids, ok) => OwnClaim(cfg, rows, appended, relay, r, now, ids, ok);
    case Mark(_, _) => OwnMark(cfg, rows, appended, relay, r, now, act);
    case MarkBad(_, _, _) => OwnMark(cfg, rows, appended, relay, r, now, act);
    case GiveUp => OwnSend(cfg, rows, appended, relay, r, now, act);
    case Reject => OwnSend(cfg, rows, appended, relay, r, now, act);
    case StartPublish => OwnSend(cfg, rows, appended, relay, r, now, act);
    case PublishReturns(ok) => OwnReturn(cfg, rows, appended, relay, r, now, ok);
    case _ =>
  }

  /** Two relays never have one row inside a broker publish at the same time. */
  ghost predicate Exclusive(s: Sys) {
    forall a, b :: Sending(s, a) && Sending(s, b) && a != b ==> s.relays[a].pc.row != s.relays[b].pc.row
  }

  predicate Sending(s: Sys, r: string) {
    r in s.relays && s.relays[r].pc.Publishing?
  }

  lemma LeasesExclude(cfg: Config, s: Sys)
    requires AllLeases(cfg, s)
    ensures Exclusive(s)
  {
    forall a, b | Sending(s, a) && Sending(s, b) && a != b
      ensures s.relays[a].pc.row != s.relays[b].pc.row
    {
      var x, y := s.relays[a].pc, s.relays[b].pc;
      assert Leases(cfg, s.rows, a, x, s.now) && Leases(cfg, s.rows, b, y, s.now);
      assert Held(x)[0] == x.row && Held(y)[0] == y.row;
      assert Guarded(cfg, s.rows, a, x.row, Ends(cfg, a, x));
      assert Guarded(cfg, s.rows, b, y.row, Ends(cfg, b, y));
    }
  }

  lemma {:induction false} LeasesOverRun(cfg: Config, s: Sys, run: seq<Action>)
    requires cfg.lease % MILLISECOND == 0 && cfg.publishTimeout >= 0
    requires AllLeases(cfg, s) && Possible(cfg, s, run)
    ensures AllLeases(cfg, After(cfg, s, run))
    decreases run
  {
    if run != [] {
      LeasesKept(cfg, s, run[0]);
      LeasesOverRun(cfg, Next(cfg, s, run[0]), run[1..]);
    }
  }

  // ---------------------------------------------------------------------------
  // A lease with a fraction of a millisecond is too short.

  lemma {:induction false} Extend(cfg: Config, s: Sys, run: seq<Action>, a: Action)
    requires Possible(cfg, s, run) && Enabled(cfg, After(cfg, s, run), a)
    ensures Possible(cfg, s, run + [a])
    ensures After(cfg, s, run + [a]) == Next(cfg, After(cfg, s, run), a)
    decreases run
  {
    if run == [] {
      assert run + [a] == [a] && [a][1..] == [];
    } else {
      assert (run + [a])[0] == run[0] && (run + [a])[1..] == run[1..] + [a];
      Extend(cfg, Next(cfg, s, run[0]), run[1..], a);
    }
  }

  ghost function TwoRelays(a: string, b: string): Sys {
    Sys(map[], map[a := Relay(false, Idle), b := Relay(false, Idle)], 0, map[], {}, {}, {})
  }

  const SAMPLE := Event(1, "t", 1, "", "x", "k", "p")

  /** The first relay claims the only row. */
  lemma FirstClaim(cfg: Config, a: string, b: string) returns (run: seq<Action>)
    requires Sound(cfg) && a != b
    ensures Possible(cfg, TwoRelays(a, b), run)
    ensures var s := After(cfg, TwoRelays(a, b), run);
            && s.now == 0 && OneRow(cfg, s.rows, a) && s.appended == map[1 := SAMPLE]
            && s.relays.Keys == {a, b} && s.relays[b] == Relay(false, Idle)
            && s.relays[a].pc == Batch([1], Local(cfg, a, 0) + cfg.lease)
  {
    var s := TwoRelays(a, b);
    run := [];
    Extend(cfg, s, run, Append(1, SAMPLE)); run := run + [Append(1, SAMPLE)];
    Extend(cfg, s, run, Run(a, Recover(true, true))); run := run + [Run(a, Recover(true, true))];
    Extend(cfg, s, run, Run(a, Stamp)); run := run + [Run(a, Stamp)];
    Extend(cfg, s, run, Run(a, Claim([1], true))); run := run + [Run(a, Claim([1], true))];
  }

  /** The only row, claimed at the start. */
  ghost predicate OneRow(cfg: Config, rows: Rows, a: string) {
    && 1 in rows && rows[1].event == SAMPLE && rows[1].nextAttemptAt <= DbNow(cfg, 0)
    && rows[1].state == Processing(a, LeaseEnd(cfg, 0))
  }

  /** It starts to publish the row as late as it may. */
  lemma LatePublish(cfg: Config, a: string, b: string) returns (run: seq<Action>)
    requires Sound(cfg) && a != b
    ensures Possible(cfg, TwoRelays(a, b), run)
    ensures var s := After(cfg, TwoRelays(a, b), run);
            && s.now == cfg.lease && OneRow(cfg, s.rows, a) && s.appended == map[1 := SAMPLE]
            && s.relays.Keys == {a, b} && s.relays[b] == Relay(false, Idle)
            && s.relays[a].pc.Publishing? && s.relays[a].pc.row == 1
  {
    var s := TwoRelays(a, b);
    run := FirstClaim(cfg, a, b);
    Extend(cfg, s, run, Tick(cfg.lease - MaxPublish(cfg))); run := run + [Tick(cfg.lease - MaxPublish(cfg))];
    Extend(cfg, s, run, Run(a, StartPublish)); run := run + [Run(a, StartPublish)];
    Extend(cfg, s, run, Tick(MaxPublish(cfg))); run := run + [Tick(MaxPublish(cfg))];
  }

  /** The second relay finds the lease over, takes the row and publishes it as well. */
  lemma TruncatedLeaseOverlaps(cfg: Config, a: string, b: string) returns (run: seq<Action>)
    requires Sound(cfg) && a != b && cfg.lease % MILLISECOND != 0
    ensures Possible(cfg, TwoRelays(a, b), run)
    ensures !Exclusive(After(cfg, TwoRelays(a, b), run))
  {
    var s := TwoRelays(a, b);
    run := LatePublish(cfg, a, b);
    assert LeaseMillis(cfg) * MILLISECOND < cfg.lease;
    Extend(cfg, s, run, Run(b, Recover(true, true))); run := run + [Run(b, Recover(true, true))];
    Extend(cfg, s, run, Run(b, Stamp)); run := run + [Run(b, Stamp)];
    Extend(cfg, s, run, Run(b, Claim([1], true))); run := run + [Run(b, Claim([1], true))];
    Extend(cfg, s, run, Run(b, StartPublish)); run := run + [Run(b, StartPublish)];
    assert Sending(After(cfg, s, run), a) && Sending(After(cfg, s, run), b);
    assert After(cfg, s, run).relays[a].pc.row == After(cfg, s, run).relays[b].pc.row;
  }

  /** Exclusion holds in every run of every number of relays exactly when the lease is
      a whole number of milliseconds. */
  lemma TimedLeaseExclusion(cfg: Config)
    requires Sound(cfg)
    ensures cfg.lease % MILLISECOND == 0 <==>
            (forall s: Sys, run: seq<Action> | Initial(s) && Possible(cfg, s, run) :: Exclusive(After(cfg, s, run)))
  {
    if cfg.lease % MILLISECOND == 0 {
      forall s: Sys, run: seq<Action> | Initial(s) && Possible(cfg, s, run) ensures Exclusive(After(cfg, s, run)) {
        LeasesOverRun(cfg, s, run);
        LeasesExclude(cfg, After(cfg, s, run));
      }
    } else {
      var run := TruncatedLeaseOverlaps(cfg, "a", "b");
      assert Initial(TwoRelays("a", "b"));
    }
  }

  // ---------------------------------------------------------------------------
  // Conservation.

  /** What is known of one live row. */
  ghost predicate RowKept(cfg: Config, s: Sys, id: EventId)
    requires id in s.rows
  {
    var row := s.rows[id];
    && id in s.appended && row.event == s.appended[id]
    && row.attempts == (if row.state.Failed? then 1 else 0)
    && (row.state.Published? ==> id in s.confirmed)
    && (row.state.Failed? ==> !Accepts(cfg, id, row.event))
  }

  ghost predicate RelayKept(cfg: Config, s: Sys, r: string)
    requires r in s.relays
  {
    var pc := s.relays[r].pc;
    && (pc.Confirmed? ==> pc.row in s.confirmed)
    && (pc.Rejected? ==> pc.row in s.appended && !Accepts(cfg, pc.row, s.appended[pc.row]))
  }

  /** Every appended event is one live row or was removed after the broker confirmed
      it; live rows carry their event unchanged and have distinct business keys. */
  ghost predicate Conserved(cfg: Config, s: Sys) {
    && s.rows.Keys !! s.deleted && s.rows.Keys + s.deleted == s.appended.Keys
    && s.deleted <= s.confirmed
    && (forall id :: id in s.rows ==> RowKept(cfg, s, id))
    && (forall r :: r in s.relays ==> RelayKept(cfg, s, r))
    && OneRowPerKey(s.rows)
  }

  ghost predicate OneRowPerKey(rows: Rows) {
    forall i, j :: i in rows && j in rows && i != j && rows[i].event.dedupKey != "" ==>
      (rows[i].event.eventType, rows[i].event.dedupKey) != (rows[j].event.eventType, rows[j].event.dedupKey)
  }

  /** A statement of a relay keeps the rows and their events; only a lease of its own
      moves a row to published or failed. */
  lemma ActKeepsRows(cfg: Config, rows: Rows, appended: map<EventId, Event>, relay: Relay, r: string, now: int,
                     act: Act, id: EventId)
    requires CanAct(cfg, rows, appended, relay, r, now, act) && id in rows
    ensures var next := Acted(cfg, rows, appended, relay, r, now, act).rows;
            && next.Keys == rows.Keys
            && next[id].event == rows[id].event
            && (next[id] == rows[id]
                || (next[id].state.Pending? && next[id].attempts == rows[id].attempts && rows[id].state.Processing?)
                || (next[id].state.Processing? && next[id].attempts == rows[id].attempts && rows[id].state.Pending?)
                || (next[id].state.Published? && next[id].attempts == rows[id].attempts && rows[id].state.Processing?
                    && act.Mark? && id == relay.pc.row)
                || (next[id].state.Failed? && next[id].attempts == rows[id].attempts + 1 && rows[id].state.Processing?
                    && act.MarkBad? && id == relay.pc.row))
  {
  }

  lemma ActConserves(cfg: Config, s: Sys, r: string, act: Act)
    requires Conserved(cfg, s) && Enabled(cfg, s, Run(r, act))
    ensures Conserved(cfg, Next(cfg, s, Run(r, act)))
  {
    var next := Next(cfg, s, Run(r, act));
    var relay := s.relays[r];
    forall id | id in s.rows
      ensures id in next.rows && next.rows[id].event == s.rows[id].event && RowKept(cfg, next, id)
    {
      assert RowKept(cfg, s, id) && RelayKept(cfg, s, r);
      ActKeepsRows(cfg, s.rows, s.appended, relay, r, s.now, act, id);
    }
    assert next.rows.Keys == s.rows.Keys by {
      if id :| id in s.rows {
        ActKeepsRows(cfg, s.rows, s.appended, relay, r, s.now, act, id);
      } else {
        assert next.rows == map[];
      }
    }
    forall x | x in next.relays ensures RelayKept(cfg, next, x) {
      assert RelayKept(cfg, s, x);
    }
  }

  lemma AppendConserves(cfg: Config, s: Sys, id: EventId, e: Event)
    requires Conserved(cfg, s) && Enabled(cfg, s, Append(id, e))
    ensures Conserved(cfg, Next(cfg, s, Append(id, e)))
  {
    var next := Next(cfg, s, Append(id, e));
    if !Duplicate(s.rows, e) {
      forall i | i in next.rows ensures RowKept(cfg, next, i) {
        if i != id {
          assert RowKept(cfg, s, i);
        }
      }
      forall x | x in next.relays ensures RelayKept(cfg, next, x) {
        assert RelayKept(cfg, s, x);
      }
    }
  }

  lemma StepConserves(cfg: Config, s: Sys, a: Action)
    requires Conserved(cfg, s) && Enabled(cfg, s, a)
    ensures Conserved(cfg, Next(cfg, s, a))
  {
    var next := Next(cfg, s, a);
    match a
    case Run(r, act) => ActConserves(cfg, s, r, act);
    case Append(id, e) => AppendConserves(cfg, s, id, e);
    case Tick(_) =>
      assert forall id :: id in s.rows ==> RowKept(cfg, s, id) && RowKept(cfg, next, id);
      assert forall r :: r in s.relays ==> RelayKept(cfg, s, r) && RelayKept(cfg, next, r);
    case Cleanup(ids) =>
      assert forall id :: id in s.rows ==> RowKept(cfg, s, id);
      assert forall r :: r in s.relays ==> RelayKept(cfg, s, r) && RelayKept(cfg, next, r);
  }

  /** Outbox conservation in every reachable state, whatever fails. */
  lemma {:induction false} Conservation(cfg: Config, s: Sys, run: seq<Action>)
    requires Conserved(cfg, s) && Possible(cfg, s, run)
    ensures Conserved(cfg, After(cfg, s, run))
    decreases run
  {
    if run != [] {
      StepConserves(cfg, s, run[0]);
      Conservation(cfg, Next(cfg, s, run[0]), run[1..]);
    }
  }

  /** The same for a run from the start, in terms of single events. */
  lemma NoEventLost(cfg: Config, s: Sys, run: seq<Action>, id: EventId)
    requires Initial(s) && Possible(cfg, s, run)
    requires id in After(cfg, s, run).appended
    ensures var end := After(cfg, s, run);
            && (id in end.rows || (id in end.deleted && id in end.confirmed))
            && (id in end.rows ==> end.rows[id].event == end.appended[id])
            && (id in end.rows && end.rows[id].state.Published? ==> id in end.confirmed)
            && (id in end.rows && end.rows[id].state.Failed? ==> !Accepts(cfg, id, end.appended[id]))
            && (id in end.rows ==> (end.rows[id].attempts == 1 <==> end.rows[id].state.Failed?))
  {
    Conservation(cfg, s, run);
    if id in After(cfg, s, run).rows {
      assert RowKept(cfg, After(cfg, s, run), id);
    }
  }
}
