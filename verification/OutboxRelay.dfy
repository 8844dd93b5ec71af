/** One leadership term of the relay in its own control flow. Between any two of its
    statements the other relays, the writers and the cleanup may act on the table; and
    every round is a run of the protocol. */
module OutboxRelay {
  import opened OutboxTable
  import Protocol = OutboxProtocol
  import Leases = OutboxLeases

  datatype Config = Config(batchSize: nat, pollInterval: int, retryInitial: int, retryMax: int)

  /** The rows that pass the check, in claim order. */
  function Accepted(net: Protocol.Config, events: map<EventId, Event>, ids: seq<EventId>): seq<EventId> {
    if ids == [] then []
    else
      var last := ids[|ids| - 1];
      Accepted(net, events, ids[..|ids| - 1]) + if Protocol.Sends(net, events, last) then [last] else []
  }

  /** The interference of a term: any run of the protocol in which its relay does nothing
      leaves the relay as it is. */
  lemma {:induction false} OthersMayRun(
    net: Protocol.Config, s: Protocol.Sys, run: seq<Protocol.Action>, owner: string)
    requires Protocol.Possible(net, s, run) && owner in s.relays
    requires forall i :: 0 <= i < |run| && run[i].Run? ==> run[i].relay != owner
    ensures var end := Protocol.After(net, s, run);
            owner in end.relays && end.relays[owner] == s.relays[owner]
    decreases run
  {
    if run != [] {
      OthersMayRun(net, Protocol.Next(net, s, run[0]), run[1..], owner);
    }
  }

  lemma ClaimDistinct(rows: Rows, now: int, limit: nat, locked: set<EventId>, ids: seq<EventId>)
    requires IsClaim(rows, now, limit, locked, ids)
    ensures forall i, j :: 0 <= i < j < |ids| ==> ids[i] != ids[j]
  {
  }

  /** The result of one row, and nothing else. */
  ghost predicate RowRecorded(before: Rows, after: Rows, row: EventId, published: bool, now: int) {
    && row in before && row in after && after == before[row := after[row]]
    && (published ==> after[row] == before[row].(state := Published(now)))
    && (!published ==>
          && after[row].state.Failed? && after[row].attempts == before[row].attempts + 1
          && after[row].event == before[row].event)
  }

  /** The results of the first rows: each is published or has failed the check. */
  ghost predicate BatchRecorded(
    net: Protocol.Config, events: map<EventId, Event>, before: Rows, after: Rows, ids: seq<EventId>, now: int)
  {
    && after.Keys == before.Keys && (forall id :: id in before && id !in ids ==> after[id] == before[id])
    && (forall id :: id in ids && id in before && Protocol.Sends(net, events, id) ==>
          after[id] == before[id].(state := Published(now)))
    && (forall id :: id in ids && id in before && !Protocol.Sends(net, events, id) ==>
          && after[id].state.Failed? && after[id].attempts == before[id].attempts + 1
          && after[id].event == before[id].event)
  }

  lemma BatchStep(net: Protocol.Config, events: map<EventId, Event>, before: Rows, middle: Rows, after: Rows,
                  ids: seq<EventId>, i: nat, now: int)
    requires i < |ids| && ids[i] in before && forall j :: 0 <= j < i ==> ids[j] != ids[i]
    requires BatchRecorded(net, events, before, middle, ids[..i], now)
    requires RowRecorded(middle, after, ids[i], Protocol.Sends(net, events, ids[i]), now)
    ensures BatchRecorded(net, events, before, after, ids[..i + 1], now)
  {
    assert ids[..i + 1] == ids[..i] + [ids[i]];
    assert ids[i] !in ids[..i];
  }

  /** The rows of the relay among the given ones are pending again from the given time on. */
  ghost predicate GivenBack(before: Rows, after: Rows, owner: string, ids: seq<EventId>, at: int) {
    after == Released(before, owner, ids, at)
  }

  ghost predicate Freed(before: Rows, after: Rows, now: int, owner: string, own: bool) {
    after == Recovered(before, now, owner, own)
  }

  function EventsOf(rows: Rows): map<EventId, Event> {
    map id | id in rows :: rows[id].event
  }

  class Term {
    const owner: string
    const store: Store
    const cfg: Config
    const net: Protocol.Config
    /** Nobody else acts and no time passes; the calls that fail, by their number; the rows
        that other statements have locked. */
    const quiet: bool
    const fails: nat -> bool
    const locked: set<EventId>
    var recovered: bool
    var declared: bool
    var backoff: int
    var calls: nat
    /** The local clock, and the state of the protocol the term takes part in. */
    var clock: int
    ghost var world: Protocol.Sys

    /** Everything but the belief about the own leases. */
    ghost predicate Tied()
      reads this, store
    {
      && store.rows == world.rows && owner in world.relays
      && clock == Protocol.Local(net, owner, world.now) && Leases.Reachable(net, world)
    }

    ghost predicate Valid()
      reads this, store
    {
      Tied() && recovered == world.relays[owner].recovered
    }

    ghost predicate At(pc: Protocol.PC)
      reads this
    {
      owner in world.relays && world.relays[owner].pc == pc
    }

    /** Nothing disturbs the term. */
    ghost predicate Calm() {
      quiet && forall i :: !fails(i)
    }

    constructor (owner: string, store: Store, cfg: Config, net: Protocol.Config, clock: int, ghost world: Protocol.Sys,
                 quiet: bool, fails: nat -> bool, locked: set<EventId>)
      requires store.rows == world.rows && owner in world.relays
                 && world.relays[owner] == Protocol.Relay(false, Protocol.Idle)
      requires clock == Protocol.Local(net, owner, world.now) && Leases.Reachable(net, world)
      ensures Valid() && At(Protocol.Idle) && this.owner == owner && this.store == store && this.world == world
    {
      this.owner, this.store, this.cfg, this.net, this.clock, this.world := owner, store, cfg, net, clock, world;
      this.quiet, this.fails, this.locked, calls := quiet, fails, locked, 0;
      recovered, declared, backoff := false, false, 0;
    }

    /** Whether the next call fails. */
    method Ask() returns (bad: bool)
      modifies this`calls
      ensures Calm() ==> !bad
    {
      bad := fails(calls);
      calls := calls + 1;
    }

    function DatabaseTimeAt(clock: int): int {
      clock - Protocol.Local(net, owner, 0) + net.dbClock
    }

    function DatabaseTime(): int
      reads this
    {
      DatabaseTimeAt(clock)
    }

    /** Anything the others may do; nothing more is known to the caller. */
    method OthersRun()
      requires Tied()
      modifies this`clock, this`world, store
      ensures Tied() && Leases.Leads(net, old(world), world)
      ensures world.relays[owner] == old(world.relays[owner])
      ensures quiet ==> world == old(world) && clock == old(clock) && store.rows == old(store.rows)
    {
      Leases.LeadsNowhere(net, world);
    }

    /** The step of the protocol that goes with a statement of this relay. */
    ghost method Step(act: Protocol.Act)
      requires Protocol.Enabled(net, world, Protocol.Run(owner, act)) && Leases.Reachable(net, world)
      modifies this`world
      ensures world == Protocol.Next(net, old(world), Protocol.Run(owner, act))
      ensures Leases.Leads(net, old(world), world) && Leases.Reachable(net, world)
    {
      Leases.LeadsOne(net, world, Protocol.Run(owner, act));
      world := Protocol.Next(net, world, Protocol.Run(owner, act));
      Leases.ReachableOn(net, old(world), world);
    }

    /** The shared backoff doubles from the first pause up to the longest one; a term
        that is ending does not wait. */
    method Pause(cancelled: bool) returns (wait: int)
      modifies this`backoff
      ensures cancelled ==> wait == 0 && backoff == old(backoff)
      ensures !cancelled ==> wait == backoff
      ensures !cancelled ==>
                backoff == if cfg.retryMax < cfg.retryInitial || cfg.retryMax < 2 * old(backoff) then cfg.retryMax
                           else if 2 * old(backoff) < cfg.retryInitial then cfg.retryInitial else 2 * old(backoff)
      ensures !cancelled && 0 < cfg.retryInitial <= cfg.retryMax && 0 <= old(backoff) <= cfg.retryMax ==>
                cfg.retryInitial <= backoff <= cfg.retryMax
                && (old(backoff) < backoff || backoff == cfg.retryMax)
    {
      if cancelled {
        return 0;
      }
      var doubled := if 2 * backoff > cfg.retryInitial then 2 * backoff else cfg.retryInitial;
      backoff := if doubled < cfg.retryMax then doubled else cfg.retryMax;
      wait := backoff;
    }

    /** Gives rows back; if that fails, the next round starts with the own leases. */
    method Release(ids: seq<EventId>, at: int) returns (given: bool, ghost was: Rows)
      requires Valid() && At(Protocol.Releasing(ids))
      modifies this`recovered, this`clock, this`calls, this`world, store
      ensures Valid() && At(Protocol.Idle) && Leases.Leads(net, old(world), world)
      ensures recovered == (given && old(recovered))
      ensures quiet ==> clock == old(clock)
      ensures given ==> GivenBack(was, store.rows, owner, ids, at)
      ensures quiet ==> was == old(store.rows)
      ensures Calm() || ids == [] ==> given
    {
      was := store.rows;
      if |ids| == 0 {
        Step(Protocol.Release(false, false, at));
        assert Released(store.rows, owner, ids, at) == store.rows;
        return true, was;
      }
      OthersRun();
      was := store.rows;
      ghost var middle := world;
      var failed := Ask();
      var applied: bool := *;
      if !failed || applied {
        store.Release(owner, ids, at);
      }
      Step(Protocol.Release(!failed, !failed || applied, at));
      if failed {
        recovered := false;
      }
      given := !failed;
      Leases.LeadsOn(net, old(world), middle, world);
    }

    /** Ends a batch after a result was not recorded: the own leases are to be recovered,
        and the rows that were not tried are given back, after a pause if the database
        failed. */
    method StopBatch(rest: seq<EventId>, databaseError: bool) returns (wait: int, given: bool, at: int, ghost was: Rows)
      requires Tied() && world.relays[owner] == Protocol.Relay(false, Protocol.Releasing(rest))
      modifies this`recovered, this`backoff, this`clock, this`calls, this`world, store
      ensures Valid() && At(Protocol.Idle) && !recovered && Leases.Leads(net, old(world), world)
      ensures !databaseError ==> wait == 0 && backoff == old(backoff)
      ensures wait == 0 || wait == backoff
      ensures given ==> GivenBack(was, store.rows, owner, rest, at)
      ensures quiet ==> was == old(store.rows) && clock == old(clock) && at == clock + wait
    {
      recovered := false;
      wait := 0;
      if databaseError {
        var cancelled := Ask();
        wait := Pause(cancelled);
      }
      at := clock + wait;
      given, was := Release(rest, at);
    }

    /** Records the result of one row: published, or failed the check. */
    method Record(row: EventId, rest: seq<EventId>, ghost deadline: int, published: bool)
      returns (wait: int, goOn: bool)
      requires Valid() && recovered
      requires At(if published then Protocol.Confirmed(row, rest, deadline) else Protocol.Rejected(row, rest, deadline))
      modifies this`recovered, this`backoff, this`clock, this`calls, this`world, store
      ensures Valid() && Leases.Leads(net, old(world), world)
      ensures if goOn then recovered && At(Protocol.Batch(rest, deadline)) else At(Protocol.Idle) && !recovered
      ensures goOn ==> wait == 0 && backoff == old(backoff)
      ensures quiet ==> clock == old(clock)
      ensures Calm() && Leases.Leased(old(store.rows), owner, row) ==> goOn
      ensures Calm() && goOn ==> RowRecorded(old(store.rows), store.rows, row, published, DatabaseTime())
    {
      var failed;
      goOn, failed := Marking(row, rest, deadline, published);
      wait := 0;
      if !goOn {
        ghost var last := world;
        var given, at;
        ghost var was;
        wait, given, at, was := StopBatch(rest, failed);
        Leases.LeadsOn(net, old(world), last, world);
      }
    }

    /** The batch goes on only after a statement that has found the lease. */
    method Marking(row: EventId, rest: seq<EventId>, ghost deadline: int, published: bool)
      returns (goOn: bool, failed: bool)
      requires Valid() && recovered
      requires At(if published then Protocol.Confirmed(row, rest, deadline) else Protocol.Rejected(row, rest, deadline))
      modifies this`clock, this`calls, this`world, store
      ensures Tied() && Leases.Leads(net, old(world), world)
      ensures goOn ==> Valid() && At(Protocol.Batch(rest, deadline))
      ensures !goOn ==> world.relays[owner] == Protocol.Relay(false, Protocol.Releasing(rest))
      ensures quiet ==> clock == old(clock)
      ensures Calm() && Leases.Leased(old(store.rows), owner, row) ==> goOn
      ensures Calm() && goOn ==> RowRecorded(old(store.rows), store.rows, row, published, DatabaseTime())
    {
      OthersRun();
      ghost var middle := world;
      failed := Ask();
      var marked, reason := Mark(row, failed, published);
      MarkStep(row, rest, deadline, published, failed, reason);
      Leases.LeadsOn(net, old(world), middle, world);
      goOn := !failed && marked;
    }

    /** The step of the protocol after the statement. */
    ghost method MarkStep(row: EventId, rest: seq<EventId>, deadline: int, published: bool, failed: bool,
                          reason: string)
      requires Leases.Reachable(net, world) && owner in world.relays && world.relays[owner].recovered
      requires At(if published then Protocol.Confirmed(row, rest, deadline) else Protocol.Rejected(row, rest, deadline))
      requires store.rows == Marked(world.rows, row, published, reason) || (failed && store.rows == world.rows)
      modifies this`world
      ensures Leases.Reachable(net, world) && Leases.Leads(net, old(world), world) && owner in world.relays
      ensures store.rows == world.rows && world.now == old(world.now)
      ensures world.relays[owner] ==
              if !failed && Leases.Leased(old(world.rows), owner, row)
              then Protocol.Relay(true, Protocol.Batch(rest, deadline))
              else Protocol.Relay(false, Protocol.Releasing(rest))
    {
      var applied := !failed || store.rows != world.rows;
      Step(if published then Protocol.Mark(!failed, applied) else Protocol.MarkBad(!failed, applied, reason));
    }

    /** The statement; one that fails may have been executed. */
    method Mark(row: EventId, failed: bool, published: bool) returns (marked: bool, reason: string)
      requires Tied()
      modifies store
      ensures store.rows == old(store.rows) || store.rows == Marked(old(store.rows), row, published, reason)
      ensures !failed ==> store.rows == Marked(old(store.rows), row, published, reason)
      ensures !failed ==> (marked <==> Leases.Leased(old(store.rows), owner, row))
      ensures marked ==> RowRecorded(old(store.rows), store.rows, row, published, DatabaseTime())
    {
      var applied: bool := *;
      reason := *;
      marked := false;
      assert DatabaseTime() == Protocol.DbNow(net, world.now);
      if !failed || applied {
        if published {
          marked := store.MarkPublished(owner, row, DatabaseTime());
        } else {
          marked := store.MarkFailed(owner, row, reason);
        }
      }
    }

    ghost function Marked(rows: Rows, row: EventId, published: bool, reason: string): Rows
      reads this
    {
      if published then MarkedPublished(rows, owner, row, Protocol.DbNow(net, world.now))
      else MarkedFailed(rows, owner, row, reason)
    }

    /** The broker call for a row that has passed the check; any of its errors is taken as
        an outage, which costs no attempt and gives the rows back for after the pause. */
    method SendRow(row: EventId, rest: seq<EventId>, ghost deadline: int)
      returns (wait: int, goOn: bool, outage: bool, given: bool, at: int, ghost was: Rows)
      requires Valid() && recovered && At(Protocol.Batch([row] + rest, deadline))
      requires Protocol.TimeLeft(net, owner, world.now, deadline) && Protocol.Sends(net, world.appended, row)
      modifies this, store
      ensures Valid() && Leases.Leads(net, old(world), world)
      ensures if goOn then recovered && At(Protocol.Batch(rest, deadline)) else At(Protocol.Idle)
      ensures outage ==> !goOn && (wait == 0 || (wait == backoff && !declared))
      ensures outage && given ==> recovered && GivenBack(was, store.rows, owner, [row] + rest, at)
      ensures outage && quiet ==> was == old(store.rows) && at == clock + wait
      ensures quiet ==> clock == old(clock)
      ensures goOn ==> wait == 0 && backoff == old(backoff) && declared == old(declared)
      ensures Calm() && Leases.Leased(old(store.rows), owner, row) ==> goOn
      ensures Calm() && goOn ==> RowRecorded(old(store.rows), store.rows, row, true, DatabaseTime())
    {
      ghost var rows := store.rows;
      outage := CallBroker(row, rest, deadline);
      ghost var judged := world;
      assert quiet ==> store.rows == rows;
      wait, goOn, given, at, was := 0, false, false, 0, rows;
      if outage {
        wait, given, at, was := GiveBack([row] + rest);
      } else {
        wait, goOn := Record(row, rest, deadline, true);
      }
      Leases.LeadsOn(net, old(world), judged, world);
    }

    method CallBroker(row: EventId, rest: seq<EventId>, ghost deadline: int) returns (outage: bool)
      requires Valid() && At(Protocol.Batch([row] + rest, deadline))
      requires Protocol.TimeLeft(net, owner, world.now, deadline) && Protocol.Sends(net, world.appended, row)
      modifies this`clock, this`calls, this`world, store
      ensures Valid() && Leases.Leads(net, old(world), world)
      ensures At(if outage then Protocol.Releasing([row] + rest) else Protocol.Confirmed(row, rest, deadline))
      ensures quiet ==> clock == old(clock) && store.rows == old(store.rows)
      ensures Calm() ==> !outage
    {
      assert ([row] + rest)[0] == row && ([row] + rest)[1..] == rest;
      Step(Protocol.StartPublish);
      ghost var started := world;
      OthersRun();
      Leases.LeadsOn(net, old(world), started, world);
      ghost var returned := world;
      outage := Ask();
      Step(Protocol.PublishReturns(!outage));
      Leases.LeadsOn(net, old(world), returned, world);
    }

    /** After an outage; a term that is ending gives the rows back at once. */
    method GiveBack(ids: seq<EventId>) returns (wait: int, given: bool, at: int, ghost was: Rows)
      requires Valid() && At(Protocol.Releasing(ids))
      modifies this, store
      ensures Valid() && At(Protocol.Idle) && Leases.Leads(net, old(world), world)
      ensures wait == 0 || (wait == backoff && !declared)
      ensures recovered == (given && old(recovered))
      ensures given ==> GivenBack(was, store.rows, owner, ids, at)
      ensures quiet ==> was == old(store.rows) && clock == old(clock) && at == clock + wait
    {
      wait := 0;
      var ended := Ask();
      if !ended {
        wait := Pause(false);
        declared := false;
      }
      at := clock + wait;
      given, was := Release(ids, at);
    }

    /** One row of a batch. A row that might still be in flight after its lease, by the
        local clock, is given back with the rest. */
    method HandleRow(row: EventId, rest: seq<EventId>, deadline: int, event: Event)
      returns (wait: int, goOn: bool, sent: bool)
      requires Valid() && recovered && At(Protocol.Batch([row] + rest, deadline))
      requires row in world.appended && world.appended[row] == event
      modifies this, store
      ensures Valid() && Leases.Leads(net, old(world), world)
      ensures if goOn then recovered && At(Protocol.Batch(rest, deadline)) else At(Protocol.Idle)
      ensures sent ==> OutboxTable.Valid(row, event) && |event.payload| <= net.maxPayload
      ensures goOn && OutboxTable.Valid(row, event) && |event.payload| <= net.maxPayload ==> sent
      ensures goOn ==> wait == 0 && backoff == old(backoff) && declared == old(declared)
      ensures Calm() && Leases.Leased(old(store.rows), owner, row) ==>
                goOn || deadline - old(clock) < 2 * net.publishTimeout
      ensures quiet ==> clock == old(clock)
      ensures Calm() && goOn ==> RowRecorded(old(store.rows), store.rows, row, sent, DatabaseTime())
    {
      assert ([row] + rest)[0] == row && ([row] + rest)[1..] == rest;
      wait, goOn, sent := 0, false, false;
      var cancelled := Ask();
      if cancelled || deadline - clock < Protocol.MaxPublish(net) {
        Step(Protocol.GiveUp);
        ghost var given := world;
        ghost var was;
        var back;
        back, was := Release([row] + rest, clock);
        Leases.LeadsOn(net, old(world), given, world);
      } else if !Protocol.Accepts(net, row, event) {
        Step(Protocol.Reject);
        ghost var rejected := world;
        wait, goOn := Record(row, rest, deadline, false);
        Leases.LeadsOn(net, old(world), rejected, world);
      } else {
        sent := true;
        var outage, back, at;
        ghost var was;
        wait, goOn, outage, back, at, was := SendRow(row, rest, deadline);
      }
    }

    /** The events of the batch as the claim has returned them. */
    ghost predicate Knows(events: map<EventId, Event>, ids: seq<EventId>)
      reads this
    {
      forall id :: id in ids ==> id in events && id in world.appended && world.appended[id] == events[id]
    }

    /** The rows are leased to this relay, each is there once, and a publish fits. */
    ghost predicate Ready(rows: Rows, ids: seq<EventId>, left: int) {
      && (forall id :: id in ids ==> Leases.Leased(rows, owner, id)) && left >= 2 * net.publishTimeout
      && (forall i, j :: 0 <= i < j < |ids| ==> ids[i] != ids[j])
    }

    /** Undisturbed, the first i rows have their results. */
    ghost predicate Going(events: map<EventId, Event>, ids: seq<EventId>, i: nat, before: Rows, began: int,
                          deadline: int, after: Rows, at: int)
      requires i <= |ids|
    {
      Calm() && Ready(before, ids, deadline - began) ==>
        at == began && BatchRecorded(net, events, before, after, ids[..i], DatabaseTimeAt(at))
    }

    /** Goes through the batch. What was sent is the accepted part of the rows that were
        tried, which are all of them unless the batch has stopped. Undisturbed and in time,
        every row gets its result. */
    method Publish(ids: seq<EventId>, events: map<EventId, Event>, deadline: int)
      returns (wait: int, done: bool, sent: seq<EventId>)
      requires Valid() && recovered && At(Protocol.Batch(ids, deadline)) && Knows(events, ids)
      modifies this, store
      ensures Valid() && At(Protocol.Idle) && Leases.Leads(net, old(world), world)
      ensures done ==> recovered && sent == Accepted(net, events, ids) && declared == old(declared)
      ensures exists k :: 0 <= k <= |ids| && sent == Accepted(net, events, ids[..k])
      ensures Calm() && Ready(old(store.rows), ids, deadline - old(clock)) ==> done
      ensures Going(events, ids, |ids|, old(store.rows), old(clock), deadline, store.rows, clock)
    {
      ghost var start := world;
      wait, done, sent := SendAll(ids, events, deadline);
      if done {
        FinishBatch(start, deadline);
      }
    }

    method SendAll(ids: seq<EventId>, events: map<EventId, Event>, deadline: int)
      returns (wait: int, done: bool, sent: seq<EventId>)
      requires Valid() && recovered && At(Protocol.Batch(ids, deadline)) && Knows(events, ids)
      modifies this, store
      ensures Valid() && Leases.Leads(net, old(world), world)
      ensures if done then recovered && At(Protocol.Batch([], deadline)) else At(Protocol.Idle)
      ensures done ==> sent == Accepted(net, events, ids) && declared == old(declared)
      ensures exists k :: 0 <= k <= |ids| && sent == Accepted(net, events, ids[..k])
      ensures Calm() && Ready(old(store.rows), ids, deadline - old(clock)) ==> done
      ensures Going(events, ids, |ids|, old(store.rows), old(clock), deadline, store.rows, clock)
    {
      ghost var start, rows, began := world, store.rows, clock;
      wait, done, sent := 0, false, [];
      Leases.LeadsNowhere(net, world);
      assert ids[0..] == ids && Accepted(net, events, ids[..0]) == [];
      for i := 0 to |ids|
        invariant Valid() && recovered && At(Protocol.Batch(ids[i..], deadline))
        invariant Knows(events, ids) && Leases.Leads(net, start, world) && declared == old(declared)
        invariant sent == Accepted(net, events, ids[..i]) && !done
        invariant Going(events, ids, i, rows, began, deadline, store.rows, clock)
      {
        var goOn, sentIt;
        wait, goOn, sentIt := NextRow(ids, i, events, deadline, start, rows, began);
        AcceptedNext(net, events, ids, i);
        if sentIt {
          sent := sent + [ids[i]];
        }
        if !goOn {
          return;
        }
      }
      assert ids[..|ids|] == ids && ids[|ids|..] == [];
      done := true;
    }

    method NextRow(ids: seq<EventId>, i: nat, events: map<EventId, Event>, deadline: int,
                   ghost start: Protocol.Sys, ghost rows: Rows, ghost began: int)
      returns (wait: int, goOn: bool, sent: bool)
      requires i < |ids| && Valid() && recovered && At(Protocol.Batch(ids[i..], deadline))
      requires Knows(events, ids) && Leases.Leads(net, start, world)
      requires Going(events, ids, i, rows, began, deadline, store.rows, clock)
      modifies this, store
      ensures Valid() && Leases.Leads(net, start, world) && Knows(events, ids)
      ensures if goOn then recovered && At(Protocol.Batch(ids[i + 1..], deadline)) else At(Protocol.Idle)
      ensures sent ==> Protocol.Sends(net, events, ids[i])
      ensures goOn ==> (sent <==> Protocol.Sends(net, events, ids[i])) && declared == old(declared)
      ensures Calm() && Ready(rows, ids, deadline - began) ==> goOn
      ensures goOn ==> Going(events, ids, i + 1, rows, began, deadline, store.rows, clock)
      ensures !goOn ==> !(Calm() && Ready(rows, ids, deadline - began))
    {
      ghost var before, middle := world, store.rows;
      assert ids[i..] == [ids[i]] + ids[i + 1..] && ids[i] in ids;
      ghost var calm := Calm() && Ready(rows, ids, deadline - began);
      if calm {
        StillLeased(net, events, rows, middle, ids, i, DatabaseTime(), owner);
      }
      wait, goOn, sent := HandleRow(ids[i], ids[i + 1..], deadline, events[ids[i]]);
      Leases.EventsAlong(net, before, world);
      Leases.LeadsOn(net, start, before, world);
      if calm {
        BatchStep(net, events, rows, middle, store.rows, ids, i, DatabaseTime());
      }
    }

    ghost method FinishBatch(start: Protocol.Sys, deadline: int)
      requires Valid() && At(Protocol.Batch([], deadline)) && Leases.Leads(net, start, world)
      modifies this`world
      ensures Valid() && At(Protocol.Idle) && Leases.Leads(net, start, world)
    {
      Step(Protocol.Finish);
      Leases.LeadsOn(net, start, old(world), world);
    }

    method Recover() returns (ok: bool)
      requires Valid() && At(Protocol.Idle)
      modifies this`recovered, this`calls, this`world, store
      ensures Valid() && Leases.Leads(net, old(world), world)
      ensures if ok then recovered && At(Protocol.Ready) else At(Protocol.Idle) && recovered == old(recovered)
      ensures ok ==> Freed(old(store.rows), store.rows, DatabaseTime(), owner, !old(recovered))
      ensures Calm() ==> ok
    {
      var applied: bool := *;
      var failed := Ask();
      ok := !failed;
      var now := DatabaseTime();
      assert now == Protocol.DbNow(net, world.now);
      ghost var rows := store.rows;
      if ok || applied {
        store.RecoverLeases(now, owner, !recovered);
      }
      Step(Protocol.Recover(ok, ok || applied));
      assert world.rows == if ok || applied then Recovered(rows, now, owner, !recovered) else rows;
      if ok {
        recovered := true;
      }
    }

    /** The claim as the database executes it. */
    method TakeRows() returns (ids: seq<EventId>)
      requires Tied()
      modifies store
      ensures store.rows == Claimed(old(store.rows), ids, owner, Protocol.LeaseEnd(net, world.now))
      ensures forall i, j :: 0 <= i < j < |ids| ==> ids[i] != ids[j]
      ensures forall id :: id in ids ==>
                id in old(store.rows) && Due(old(store.rows)[id], Protocol.DbNow(net, world.now))
      ensures IsClaim(old(store.rows), DatabaseTime(), cfg.batchSize, locked, ids)
    {
      var now, millis := DatabaseTime(), Protocol.LeaseMillis(net);
      assert now == Protocol.DbNow(net, world.now) && now + millis * 1_000_000 == Protocol.LeaseEnd(net, world.now);
      ghost var rows := store.rows;
      ids := store.Claim(now, owner, cfg.batchSize, millis, locked);
      ClaimDistinct(rows, now, cfg.batchSize, locked, ids);
    }

    /** A claim that reports an error may have taken rows; then they are lost. */
    method Claim(ghost deadline: int) returns (ok: bool, ids: seq<EventId>)
      requires Valid() && At(Protocol.Claiming(deadline))
      modifies this`calls, this`world, store
      ensures Valid() && Leases.Leads(net, old(world), world)
      ensures if ok then At(Protocol.Batch(ids, deadline)) else At(Protocol.Idle)
      ensures forall id :: id in ids ==> id in store.rows
      ensures world.lost == if ok then old(world.lost) else old(world.lost) + set id | id in ids :: (owner, id)
      ensures ok ==> IsClaim(old(store.rows), DatabaseTime(), cfg.batchSize, locked, ids)
      ensures ok ==> store.rows == Claimed(old(store.rows), ids, owner, Protocol.LeaseEnd(net, old(world.now)))
      ensures Calm() ==> ok
    {
      var applied: bool := *;
      var failed := Ask();
      ok, ids := !failed, [];
      if ok || applied {
        ids := TakeRows();
      } else {
        assert Claimed(store.rows, [], owner, Protocol.LeaseEnd(net, world.now)) == store.rows;
      }
      Step(Protocol.Claim(ids, ok));
    }

    /** What an undisturbed round achieves: it takes the first due rows, sends those that
        pass the check, and every row it took has its result. */
    ghost predicate Undisturbed(before: Rows, after: Rows, taken: seq<EventId>, sent: seq<EventId>, wait: int)
      reads this
    {
      && IsClaim(before, DatabaseTime(), cfg.batchSize, locked, taken)
      && sent == Accepted(net, EventsOf(before), taken)
      && BatchRecorded(net, EventsOf(before), before, after, taken, DatabaseTime())
      && backoff == 0 && wait == if |taken| == cfg.batchSize then 0 else cfg.pollInterval
    }

    /** The first half of a round: the leases are recovered and the exchange is declared. */
    method Prepare() returns (ready: bool, wait: int, cancelled: bool, ghost was: Rows, ghost base: Rows)
      requires Valid() && At(Protocol.Idle)
      modifies this, store
      ensures Valid() && Leases.Leads(net, old(world), world)
      ensures if ready then recovered && declared && At(Protocol.Ready) else At(Protocol.Idle)
      ensures Calm() ==> ready
      ensures ready ==> Freed(was, base, DatabaseTime(), owner, !old(recovered)) || !quiet
      ensures quiet ==> clock == old(clock) && was == old(store.rows) && (ready ==> base == store.rows)
    {
      ready, wait := false, 0;
      OthersRun();
      was, base := store.rows, store.rows;
      ghost var before := world;
      cancelled := Ask();
      var ok := Recover();
      Leases.LeadsOn(net, old(world), before, world);
      if !ok {
        wait := Pause(cancelled);
        return;
      }
      before, base := world, store.rows;
      OthersRun();
      Leases.LeadsOn(net, old(world), before, world);
      if !declared {
        var refused := Ask();
        if refused {
          before := world;
          Step(Protocol.DeclareFails);
          Leases.LeadsOn(net, old(world), before, world);
          wait := Pause(cancelled);
          return;
        }
        declared := true;
      }
      ready := true;
    }

    /** One claim and publish round is a run of the protocol, in which the relay is idle
        at both ends. Then the leases of a relay that counts them as recovered are exactly
        the rows of its lost claims. */
    method Cycle() returns (wait: int, sent: seq<EventId>, ghost taken: seq<EventId>, ghost base: Rows)
      requires Valid() && At(Protocol.Idle)
      modifies this, store
      ensures Valid() && At(Protocol.Idle) && Leases.Leads(net, old(world), world)
      ensures recovered ==> forall id: EventId :: Leases.Leased(store.rows, owner, id) <==> (owner, id) in world.lost
      ensures Calm() && net.lease >= 2 * net.publishTimeout ==>
                clock == old(clock) && Freed(old(store.rows), base, DatabaseTime(), owner, !old(recovered))
      ensures Calm() && net.lease >= 2 * net.publishTimeout ==>
                recovered && declared && Undisturbed(base, store.rows, taken, sent, wait)
    {
      sent, taken := [], [];
      var ready, cancelled;
      ghost var was;
      ready, wait, cancelled, was, base := Prepare();
      if ready {
        ghost var before := world;
        wait, sent, taken := ClaimAndPublish(cancelled);
        Leases.LeadsOn(net, old(world), before, world);
      }
      IdleLeases(net, world, owner);
    }

    method ClaimAndPublish(cancelled: bool) returns (wait: int, sent: seq<EventId>, ghost taken: seq<EventId>)
      requires Valid() && recovered && At(Protocol.Ready)
      modifies this, store
      ensures Valid() && At(Protocol.Idle) && Leases.Leads(net, old(world), world)
      ensures Calm() && net.lease >= 2 * net.publishTimeout ==>
                && recovered && declared == old(declared) && clock == old(clock)
                && Undisturbed(old(store.rows), store.rows, taken, sent, wait)
    {
      sent := [];
      ghost var base, began := store.rows, clock;
      var ok, ids, deadline := ClaimNow();
      taken := ids;
      if !ok {
        wait := Pause(cancelled);
        return;
      }
      ghost var before, claimed := world, store.rows;
      wait, sent := PublishBatch(ids, deadline);
      Leases.LeadsOn(net, old(world), before, world);
      if Calm() && net.lease >= 2 * net.publishTimeout {
        assert ids[..|ids|] == ids;
        assert clock == began && BatchRecorded(net, EventsOf(claimed), claimed, store.rows, ids, DatabaseTime());
        ClaimedBatch(net, base, claimed, store.rows, ids, owner, before.now, DatabaseTime());
      }
    }

    /** The claim with its deadline by the local clock. */
    method ClaimNow() returns (ok: bool, ids: seq<EventId>, deadline: int)
      requires Valid() && recovered && At(Protocol.Ready)
      modifies this`clock, this`calls, this`world, store
      ensures Valid() && Leases.Leads(net, old(world), world)
      ensures if ok then At(Protocol.Batch(ids, deadline)) else At(Protocol.Idle)
      ensures forall id :: id in ids ==> id in store.rows
      ensures deadline == old(clock) + net.lease
      ensures Calm() ==>
                && ok && clock == old(clock) && IsClaim(old(store.rows), DatabaseTime(), cfg.batchSize, locked, ids)
                && store.rows == Claimed(old(store.rows), ids, owner, Protocol.LeaseEnd(net, world.now))
                && Ready(store.rows, ids, 2 * net.publishTimeout)
    {
      deadline := clock + net.lease;
      ghost var base := store.rows;
      Step(Protocol.Stamp);
      ghost var before := world;
      OthersRun();
      Leases.LeadsOn(net, old(world), before, world);
      before := world;
      ghost var middle := store.rows;
      ok, ids := Claim(deadline);
      Leases.LeadsOn(net, old(world), before, world);
      if ok {
        ClaimDistinct(middle, DatabaseTime(), cfg.batchSize, locked, ids);
      }
    }

    method PublishBatch(ids: seq<EventId>, deadline: int) returns (wait: int, sent: seq<EventId>)
      requires Valid() && recovered && At(Protocol.Batch(ids, deadline)) && forall id :: id in ids ==> id in store.rows
      modifies this, store
      ensures Valid() && At(Protocol.Idle) && Leases.Leads(net, old(world), world)
      ensures Calm() && Ready(old(store.rows), ids, deadline - old(clock)) ==>
                && recovered && declared == old(declared) && backoff == 0
                && sent == Accepted(net, EventsOf(old(store.rows)), ids)
                && wait == if |ids| == cfg.batchSize then 0 else cfg.pollInterval
      ensures Going(EventsOf(old(store.rows)), ids, |ids|, old(store.rows), old(clock), deadline, store.rows, clock)
    {
      var events := EventsOf(store.rows);
      KnownEvents(net, world, ids);
      var done;
      wait, done, sent := Publish(ids, events, deadline);
      if done {
        backoff := 0;
        wait := if |ids| == cfg.batchSize then 0 else cfg.pollInterval;
      }
    }
  }

  lemma KnownEvents(net: Protocol.Config, world: Protocol.Sys, ids: seq<EventId>)
    requires Leases.Reachable(net, world) && forall id :: id in ids ==> id in world.rows
    ensures forall id :: id in ids ==>
              id in EventsOf(world.rows) && id in world.appended && world.appended[id] == EventsOf(world.rows)[id]
  {
    Leases.ReachableKept(net, world);
    forall id | id in ids ensures id in world.appended && world.appended[id] == world.rows[id].event {
      assert Protocol.RowKept(net, world, id);
    }
  }

  /** The rows that have no result yet are still leased. */
  lemma StillLeased(net: Protocol.Config, events: map<EventId, Event>, before: Rows, middle: Rows, ids: seq<EventId>,
                    i: nat, now: int, owner: string)
    requires i < |ids| && BatchRecorded(net, events, before, middle, ids[..i], now)
    requires Leases.Leased(before, owner, ids[i])
    requires forall i, j :: 0 <= i < j < |ids| ==> ids[i] != ids[j]
    ensures Leases.Leased(middle, owner, ids[i]) && ids[i] in before && forall j :: 0 <= j < i ==> ids[j] != ids[i]
  {
    assert ids[i] !in ids[..i];
  }

  /** A claim changes nothing but the states, so the results may be read against the table
      before it. */
  lemma ClaimedBatch(net: Protocol.Config, before: Rows, claimed: Rows, after: Rows, ids: seq<EventId>, owner: string,
                     at: int, now: int)
    requires claimed == Claimed(before, ids, owner, Protocol.LeaseEnd(net, at))
    requires BatchRecorded(net, EventsOf(claimed), claimed, after, ids, now)
    ensures BatchRecorded(net, EventsOf(before), before, after, ids, now)
    ensures EventsOf(claimed) == EventsOf(before)
  {
    assert EventsOf(claimed) == EventsOf(before);
  }

  /** What the protocol knows of an idle relay's leases. */
  lemma IdleLeases(net: Protocol.Config, world: Protocol.Sys, owner: string)
    requires Leases.Reachable(net, world) && owner in world.relays && world.relays[owner].pc.Idle?
    ensures world.relays[owner].recovered ==>
              forall id: EventId :: Leases.Leased(world.rows, owner, id) <==> (owner, id) in world.lost
  {
    Leases.ReachableKept(net, world);
    assert Leases.LeasesKnown(world.rows, world.lost, owner, world.relays[owner]);
  }

  lemma AcceptedNext(net: Protocol.Config, events: map<EventId, Event>, ids: seq<EventId>, i: nat)
    requires i < |ids|
    ensures Accepted(net, events, ids[..i + 1])
            == Accepted(net, events, ids[..i]) + if Protocol.Sends(net, events, ids[i]) then [ids[i]] else []
  {
    assert ids[..i + 1][..i] == ids[..i];
  }
}
