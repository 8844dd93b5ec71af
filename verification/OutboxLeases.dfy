/** The leases a relay has of its own, in every run: which of them its own recovery may
    still count on, and which a lost claim has left behind. */
module OutboxLeases {
  import opened OutboxTable
  import opened OutboxProtocol

  /** The rows the relay still has to record or to give back. */
  function Engaged(pc: PC): seq<EventId> {
    match pc
    case Batch(rest, _) => rest
    case Publishing(row, rest, _, _) => [row] + rest
    case Confirmed(row, rest, _) => [row] + rest
    case Rejected(row, rest, _) => [row] + rest
    case Releasing(ids) => ids
    case _ => []
  }

  predicate Leased(rows: Rows, r: string, id: EventId) {
    id in rows && LeasedTo(rows[id], r)
  }

  /** A lost row is still leased to the relay whose claim was lost, which knows nothing of
      it; a recovered relay knows of all its other leases. */
  ghost predicate LeasesKnown(rows: Rows, lost: set<(string, EventId)>, r: string, relay: Relay) {
    && (forall id :: (r, id) in lost ==> id !in Engaged(relay.pc))
    && (relay.recovered ==> forall id: EventId :: Leased(rows, r, id) ==> (r, id) in lost || id in Engaged(relay.pc))
  }

  ghost predicate LostKept(s: Sys) {
    && (forall r, id :: (r, id) in s.lost ==> Leased(s.rows, r, id))
    && (forall r :: r in s.relays ==> LeasesKnown(s.rows, s.lost, r, s.relays[r]))
  }

  // ---------------------------------------------------------------------------
  // Every step keeps it.

  /** A statement of r leaves a lost row as it is, unless it takes it back. */
  lemma LostStays(cfg: Config, s: Sys, r: string, act: Act, x: string, id: EventId)
    requires LostKept(s) && Enabled(cfg, s, Run(r, act)) && (x, id) in LostAfter(cfg, s, r, act)
    ensures Leased(Next(cfg, s, Run(r, act)).rows, x, id)
  {
    assert LeasesKnown(s.rows, s.lost, r, s.relays[r]);
    if (x, id) in s.lost {
      assert Leased(s.rows, x, id);
      assert x == r ==> id !in Engaged(s.relays[r].pc);
    }
  }

  /** What another relay does gives x no lease. */
  lemma NoneForOthers(cfg: Config, s: Sys, r: string, act: Act, x: string, id: EventId)
    requires Enabled(cfg, s, Run(r, act)) && x != r && Leased(Next(cfg, s, Run(r, act)).rows, x, id)
    ensures Leased(s.rows, x, id)
    ensures act.Recover? && act.applied ==> !TakenBack(cfg, s, r, id)
  {
  }

  lemma OtherKnown(cfg: Config, s: Sys, r: string, act: Act, x: string)
    requires LostKept(s) && Enabled(cfg, s, Run(r, act)) && x in s.relays && x != r
    ensures LeasesKnown(Next(cfg, s, Run(r, act)).rows, LostAfter(cfg, s, r, act), x, s.relays[x])
  {
    var next := Next(cfg, s, Run(r, act));
    assert LeasesKnown(s.rows, s.lost, x, s.relays[x]);
    forall id: EventId | Leased(next.rows, x, id) && s.relays[x].recovered
      ensures (x, id) in next.lost || id in Engaged(s.relays[x].pc)
    {
      NoneForOthers(cfg, s, r, act, x, id);
    }
  }

  lemma OwnRecover(cfg: Config, s: Sys, r: string, act: Act)
    requires LostKept(s) && Enabled(cfg, s, Run(r, act)) && act.Recover?
    ensures var next := Next(cfg, s, Run(r, act));
            LeasesKnown(next.rows, next.lost, r, next.relays[r])
  {
    var next := Next(cfg, s, Run(r, act));
    assert LeasesKnown(s.rows, s.lost, r, s.relays[r]);
    forall id: EventId | Leased(next.rows, r, id) && next.relays[r].recovered ensures (r, id) in next.lost {
      assert Leased(s.rows, r, id);
    }
  }

  lemma OwnClaimed(cfg: Config, s: Sys, r: string, act: Act)
    requires LostKept(s) && Enabled(cfg, s, Run(r, act)) && act.Claim?
    ensures var next := Next(cfg, s, Run(r, act));
            LeasesKnown(next.rows, next.lost, r, next.relays[r])
  {
    var next := Next(cfg, s, Run(r, act));
    assert LeasesKnown(s.rows, s.lost, r, s.relays[r]);
    forall id | (r, id) in s.lost ensures id !in act.ids {
      assert Leased(s.rows, r, id);
    }
    forall id: EventId | Leased(next.rows, r, id) && id !in act.ids ensures Leased(s.rows, r, id) {
    }
  }

  /** Marks and releases. */
  lemma OwnRecorded(cfg: Config, s: Sys, r: string, act: Act)
    requires LostKept(s) && Enabled(cfg, s, Run(r, act)) && (act.Mark? || act.MarkBad? || act.Release?)
    ensures var next := Next(cfg, s, Run(r, act));
            LeasesKnown(next.rows, next.lost, r, next.relays[r])
  {
    var next := Next(cfg, s, Run(r, act));
    assert LeasesKnown(s.rows, s.lost, r, s.relays[r]);
    forall id: EventId | Leased(next.rows, r, id) ensures Leased(s.rows, r, id) {
    }
  }

  /** Steps that change no row. */
  lemma OwnMoved(cfg: Config, s: Sys, r: string, act: Act)
    requires LostKept(s) && Enabled(cfg, s, Run(r, act))
    requires !act.Recover? && !act.Claim? && !act.Mark? && !act.MarkBad? && !act.Release?
    ensures var next := Next(cfg, s, Run(r, act));
            LeasesKnown(next.rows, next.lost, r, next.relays[r])
  {
    var next := Next(cfg, s, Run(r, act));
    var was, pc := s.relays[r].pc, next.relays[r].pc;
    assert LeasesKnown(s.rows, s.lost, r, s.relays[r]) && next.rows == s.rows && next.lost == s.lost;
    if act.Reject? || act.StartPublish? {
      assert was.rest == [was.rest[0]] + was.rest[1..];
    }
    assert forall id :: id in Engaged(pc) ==> id in Engaged(was);
    assert !act.Stop? ==> forall id :: id in Engaged(was) ==> id in Engaged(pc);
  }

  lemma OwnKnown(cfg: Config, s: Sys, r: string, act: Act)
    requires LostKept(s) && Enabled(cfg, s, Run(r, act))
    ensures var next := Next(cfg, s, Run(r, act));
            LeasesKnown(next.rows, next.lost, r, next.relays[r])
  {
    match act
    case Recover(_, _) => OwnRecover(cfg, s, r, act);
    case Claim(_, _) => OwnClaimed(cfg, s, r, act);
    case Mark(_, _) => OwnRecorded(cfg, s, r, act);
    case MarkBad(_, _, _) => OwnRecorded(cfg, s, r, act);
    case Release(_, _, _) => OwnRecorded(cfg, s, r, act);
    case _ => OwnMoved(cfg, s, r, act);
  }

  lemma ActKeepsLost(cfg: Config, s: Sys, r: string, act: Act)
    requires LostKept(s) && Enabled(cfg, s, Run(r, act))
    ensures LostKept(Next(cfg, s, Run(r, act)))
  {
    var next := Next(cfg, s, Run(r, act));
    forall x, id | (x, id) in next.lost ensures Leased(next.rows, x, id) {
      LostStays(cfg, s, r, act, x, id);
    }
    forall x | x in next.relays ensures LeasesKnown(next.rows, next.lost, x, next.relays[x]) {
      if x == r {
        OwnKnown(cfg, s, r, act);
      } else {
        OtherKnown(cfg, s, r, act, x);
      }
    }
  }

  lemma StepKeepsLost(cfg: Config, s: Sys, a: Action)
    requires LostKept(s) && Enabled(cfg, s, a)
    ensures LostKept(Next(cfg, s, a))
  {
    if a.Run? {
      ActKeepsLost(cfg, s, a.relay, a.act);
    } else {
      var next := Next(cfg, s, a);
      assert forall r, id :: (r, id) in s.lost ==> Leased(s.rows, r, id) && Leased(next.rows, r, id);
      forall r | r in s.relays ensures LeasesKnown(next.rows, next.lost, r, next.relays[r]) {
        assert LeasesKnown(s.rows, s.lost, r, s.relays[r]);
        assert forall id: EventId :: Leased(next.rows, r, id) ==> Leased(s.rows, r, id);
      }
    }
  }

  lemma {:induction false} LostOverRun(cfg: Config, s: Sys, run: seq<Action>)
    requires LostKept(s) && Possible(cfg, s, run)
    ensures LostKept(After(cfg, s, run))
    decreases run
  {
    if run != [] {
      StepKeepsLost(cfg, s, run[0]);
      LostOverRun(cfg, Next(cfg, s, run[0]), run[1..]);
    }
  }

  // ---------------------------------------------------------------------------
  // What every run gives.

  /** The own-lease invariant, exactly: in every run, the leases of a relay between two
      rounds that counts its leases as recovered are the rows of its lost claims that no
      recovery has taken back. */
  lemma OwnLeasesExact(cfg: Config, s: Sys, run: seq<Action>, r: string)
    requires Initial(s) && Possible(cfg, s, run)
    requires var end := After(cfg, s, run);
             r in end.relays && end.relays[r].pc.Idle? && end.relays[r].recovered
    ensures var end := After(cfg, s, run);
            forall id: EventId :: Leased(end.rows, r, id) <==> (r, id) in end.lost
  {
    LostOverRun(cfg, s, run);
    assert LeasesKnown(After(cfg, s, run).rows, After(cfg, s, run).lost, r, After(cfg, s, run).relays[r]);
  }

  /** No claim of the run reported an error after it had taken rows. */
  predicate ClaimsSure(run: seq<Action>) {
    forall i :: 0 <= i < |run| && run[i].Run? && run[i].act.Claim? && !run[i].act.ok ==> run[i].act.ids == []
  }

  lemma {:induction false} NothingLost(cfg: Config, s: Sys, run: seq<Action>)
    requires s.lost == {} && Possible(cfg, s, run) && ClaimsSure(run)
    ensures After(cfg, s, run).lost == {}
    decreases run
  {
    if run != [] {
      assert Next(cfg, s, run[0]).lost == {};
      NothingLost(cfg, Next(cfg, s, run[0]), run[1..]);
    }
  }

  /** If a claim that fails takes nothing, there is no such lease. */
  lemma NoOwnLease(cfg: Config, s: Sys, run: seq<Action>, r: string)
    requires Initial(s) && Possible(cfg, s, run) && ClaimsSure(run)
    requires var end := After(cfg, s, run);
             r in end.relays && end.relays[r].pc.Idle? && end.relays[r].recovered
    ensures forall id: EventId :: !Leased(After(cfg, s, run).rows, r, id)
  {
    OwnLeasesExact(cfg, s, run, r);
    NothingLost(cfg, s, run);
  }

  /** And otherwise there can be: a relay that lost its first claim is idle, counts its
      leases as recovered, and has one. */
  lemma LostClaim(cfg: Config, a: string, b: string) returns (run: seq<Action>)
    requires Sound(cfg) && a != b
    ensures Possible(cfg, TwoRelays(a, b), run)
    ensures var s := After(cfg, TwoRelays(a, b), run);
            && a in s.relays && s.relays[a] == Relay(true, Idle)
            && Leased(s.rows, a, 1) && s.lost == {(a, 1)}
  {
    var s := TwoRelays(a, b);
    run := [];
    Extend(cfg, s, run, Append(1, SAMPLE));
    run := run + [Append(1, SAMPLE)];
    Extend(cfg, s, run, Run(a, Recover(true, true)));
    run := run + [Run(a, Recover(true, true))];
    Extend(cfg, s, run, Run(a, Stamp));
    run := run + [Run(a, Stamp)];
    Extend(cfg, s, run, Run(a, Claim([1], false)));
    run := run + [Run(a, Claim([1], false))];
  }

  // ---------------------------------------------------------------------------
  // A recorded result is final.

  predicate IsFinal(row: Row) {
    row.state.Published? || row.state.Failed?
  }

  /** Recording a publish, or a failed check, as the holder of the lease: the row has its
      result, and nothing else of the table changes. */
  lemma ResultRecorded(cfg: Config, s: Sys, r: string, act: Act)
    requires (act.Mark? || act.MarkBad?) && act.applied && Enabled(cfg, s, Run(r, act))
    requires Leased(s.rows, r, s.relays[r].pc.row)
    ensures var id, next := s.relays[r].pc.row, Next(cfg, s, Run(r, act));
            && next.rows.Keys == s.rows.Keys && (forall k :: k in s.rows && k != id ==> next.rows[k] == s.rows[k])
            && (act.Mark? ==> next.rows[id] == s.rows[id].(state := Published(s.now + cfg.dbClock)))
            && (act.MarkBad? ==> next.rows[id].state.Failed? && next.rows[id].attempts == s.rows[id].attempts + 1)
            && (act.ok ==> next.relays[r] == s.relays[r].(pc := Batch(s.relays[r].pc.rest, s.relays[r].pc.deadline)))
  {
  }

  lemma FinalRow(cfg: Config, s: Sys, r: string, act: Act, id: EventId)
    requires Enabled(cfg, s, Run(r, act)) && (id in s.rows ==> IsFinal(s.rows[id]))
    ensures var next := Next(cfg, s, Run(r, act));
            id in next.rows ==> id in s.rows && next.rows[id] == s.rows[id]
  {
  }

  /** A statement takes nothing up that is final or gone. */
  lemma NotTakenUp(cfg: Config, s: Sys, r: string, act: Act, id: EventId)
    requires Enabled(cfg, s, Run(r, act)) && (id in s.rows ==> IsFinal(s.rows[id]))
    requires id !in Engaged(s.relays[r].pc)
    ensures id !in Engaged(Next(cfg, s, Run(r, act)).relays[r].pc)
  {
    var pc := s.relays[r].pc;
    if pc.Batch? && pc.rest != [] {
      assert pc.rest == [pc.rest[0]] + pc.rest[1..];
    }
  }

  lemma FinalStep(cfg: Config, s: Sys, a: Action, id: EventId, r: string)
    requires Conserved(cfg, s) && Enabled(cfg, s, a) && id in s.appended && (id in s.rows ==> IsFinal(s.rows[id]))
    requires r in s.relays && id !in Engaged(s.relays[r].pc)
    ensures var next := Next(cfg, s, a);
            && id in next.appended && (id in next.rows ==> id in s.rows && next.rows[id] == s.rows[id])
            && r in next.relays && id !in Engaged(next.relays[r].pc)
  {
    match a
    case Run(x, act) =>
      FinalRow(cfg, s, x, act, id);
      if x == r {
        NotTakenUp(cfg, s, r, act, id);
      }
    case _ =>
  }

  /** In every run, from then on: the row is as it was recorded until it is deleted, and a
      relay that is not at work on it never gets it again, so never sends it again. */
  lemma {:induction false} FinalForever(cfg: Config, s: Sys, run: seq<Action>, id: EventId, r: string)
    requires Conserved(cfg, s) && Possible(cfg, s, run)
    requires id in s.appended && (id in s.rows ==> IsFinal(s.rows[id]))
    requires r in s.relays && id !in Engaged(s.relays[r].pc)
    ensures var end := After(cfg, s, run);
            && (id in end.rows ==> id in s.rows && end.rows[id] == s.rows[id])
            && r in end.relays && id !in Engaged(end.relays[r].pc)
    decreases run
  {
    if run != [] {
      FinalStep(cfg, s, run[0], id, r);
      StepConserves(cfg, s, run[0]);
      FinalForever(cfg, Next(cfg, s, run[0]), run[1..], id, r);
    }
  }

  /** So the relay that has recorded a result is through with the row: whatever runs later,
      it does not send it again. */
  lemma RecordedOnce(cfg: Config, s: Sys, r: string, act: Act, run: seq<Action>)
    requires (act.Mark? || act.MarkBad?) && act.applied && Kept(cfg, s) && Enabled(cfg, s, Run(r, act))
    requires Leased(s.rows, r, s.relays[r].pc.row) && s.relays[r].pc.row !in s.relays[r].pc.rest
    requires Possible(cfg, Next(cfg, s, Run(r, act)), run)
    ensures var id, next := s.relays[r].pc.row, Next(cfg, s, Run(r, act));
            var end := After(cfg, next, run);
            && (id in end.rows ==> id in next.rows && end.rows[id] == next.rows[id])
            && r in end.relays && (end.relays[r].pc.Publishing? ==> end.relays[r].pc.row != id)
  {
    var id, next := s.relays[r].pc.row, Next(cfg, s, Run(r, act));
    ResultRecorded(cfg, s, r, act);
    StepConserves(cfg, s, Run(r, act));
    assert RowKept(cfg, s, id);
    FinalForever(cfg, next, run, id, r);
    var end := After(cfg, next, run);
    assert end.relays[r].pc.Publishing? ==> Engaged(end.relays[r].pc)[0] == end.relays[r].pc.row;
  }

  // ---------------------------------------------------------------------------
  // Runs in one piece.

  /** Some run leads from one state to the other. */
  ghost predicate Leads(cfg: Config, a: Sys, b: Sys) {
    exists run :: Possible(cfg, a, run) && After(cfg, a, run) == b
  }

  lemma LeadsNowhere(cfg: Config, s: Sys)
    ensures Leads(cfg, s, s)
  {
    assert Possible(cfg, s, []) && After(cfg, s, []) == s;
  }

  lemma LeadsOne(cfg: Config, s: Sys, a: Action)
    requires Enabled(cfg, s, a)
    ensures Leads(cfg, s, Next(cfg, s, a))
  {
    LeadsNowhere(cfg, s);
    assert Possible(cfg, s, []) && After(cfg, s, []) == s;
    Extend(cfg, s, [], a);
  }

  lemma {:induction false} Joined(cfg: Config, s: Sys, a: seq<Action>, b: seq<Action>)
    requires Possible(cfg, s, a) && Possible(cfg, After(cfg, s, a), b)
    ensures Possible(cfg, s, a + b) && After(cfg, s, a + b) == After(cfg, After(cfg, s, a), b)
    decreases a
  {
    if a == [] {
      assert a + b == b;
    } else {
      assert (a + b)[0] == a[0] && (a + b)[1..] == a[1..] + b;
      Joined(cfg, Next(cfg, s, a[0]), a[1..], b);
    }
  }

  lemma LeadsOn(cfg: Config, a: Sys, b: Sys, c: Sys)
    requires Leads(cfg, a, b) && Leads(cfg, b, c)
    ensures Leads(cfg, a, c)
  {
    var first :| Possible(cfg, a, first) && After(cfg, a, first) == b;
    var second :| Possible(cfg, b, second) && After(cfg, b, second) == c;
    Joined(cfg, a, first, second);
  }

  /** What all the theorems about a table and its relays rest on. */
  ghost predicate Kept(cfg: Config, s: Sys) {
    Conserved(cfg, s) && LostKept(s)
  }

  lemma KeptAlong(cfg: Config, a: Sys, b: Sys)
    requires Kept(cfg, a) && Leads(cfg, a, b)
    ensures Kept(cfg, b)
  {
    var run :| Possible(cfg, a, run) && After(cfg, a, run) == b;
    Conservation(cfg, a, run);
    LostOverRun(cfg, a, run);
  }

  /** Some run from the start leads to the state. */
  ghost predicate Reachable(cfg: Config, s: Sys) {
    exists start :: Initial(start) && Leads(cfg, start, s)
  }

  lemma ReachableKept(cfg: Config, s: Sys)
    requires Reachable(cfg, s)
    ensures Kept(cfg, s)
  {
    var start :| Initial(start) && Leads(cfg, start, s);
    KeptAlong(cfg, start, s);
  }

  lemma ReachableOn(cfg: Config, a: Sys, b: Sys)
    requires Reachable(cfg, a) && Leads(cfg, a, b)
    ensures Reachable(cfg, b)
  {
    var start :| Initial(start) && Leads(cfg, start, a);
    LeadsOn(cfg, start, a, b);
  }

  /** Nothing an event consists of ever changes. */
  ghost predicate EventsStay(a: Sys, b: Sys) {
    forall id :: id in a.appended ==> id in b.appended && b.appended[id] == a.appended[id]
  }

  lemma {:induction false} EventsOverRun(cfg: Config, s: Sys, run: seq<Action>)
    requires Possible(cfg, s, run)
    ensures EventsStay(s, After(cfg, s, run))
    decreases run
  {
    if run != [] {
      EventsOverRun(cfg, Next(cfg, s, run[0]), run[1..]);
    }
  }

  lemma EventsAlong(cfg: Config, a: Sys, b: Sys)
    requires Leads(cfg, a, b)
    ensures EventsStay(a, b)
  {
    var run :| Possible(cfg, a, run) && After(cfg, a, run) == b;
    EventsOverRun(cfg, a, run);
  }
}
