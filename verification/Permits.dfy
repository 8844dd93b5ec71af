/** Polling slots and IMAP connection permits: the workers of one scheduler, its cache
    of open sessions and the closes in progress, interleaved step by step. */
module Permits {
  import opened Options

  type Profile = nat
  type WorkerId = nat

  datatype Limits = Limits(maxConcurrency: nat, maxOpenConnections: nat)

  /** IMAPPollingConfig.validate. */
  predicate Sound(limits: Limits) {
    1 <= limits.maxConcurrency <= limits.maxOpenConnections
  }

  /** Where one worker is inside a poll. A worker holds a permit itself only while it
      dials and while it aborts a session it has just taken out of the cache. */
  datatype PC =
    | Started
    | Checking
    | Wanting
    | Evicting
    | Waiting
    | Dialing
    | Polling
    | Aborting(resume: PC)
    | Ending
    | Leaving

  datatype Worker = Worker(profile: Profile, pc: PC)

  /** used counts the permits taken from connSlots; sessions maps a profile to the last
      use of its cached session; closing counts the graceful closes in progress. */
  datatype Sched = Sched(used: nat, sessions: map<Profile, int>, closing: nat, workers: map<WorkerId, Worker>)

  datatype Action =
    | TryStart(w: WorkerId, p: Profile)
    | Look(w: WorkerId)
    | Reuse(w: WorkerId, now: int)
    | DropGraceful(w: WorkerId)
    | DropAbort(w: WorkerId)
    | AbortDone(w: WorkerId)
    | FirstTry(w: WorkerId)
    | NoCredentials(w: WorkerId)
    | Evict(w: WorkerId, victim: Option<Profile>)
    | TakePermit(w: WorkerId)
    | CancelWait(w: WorkerId)
    | DialOk(w: WorkerId, now: int)
    | DialFails(w: WorkerId)
    | EndPoll(w: WorkerId)
    | Finish(w: WorkerId)
    | Leave(w: WorkerId)
    | CloseDone
    | CloseIdle(p: Profile)
    | CloseAll

  predicate Running(s: Sched, p: Profile) {
    exists w :: w in s.workers && s.workers[w].profile == p && !s.workers[w].pc.Leaving?
  }

  /** The session evictForCapacity closes: idle, and no idle one was used earlier. */
  ghost predicate LeastRecentlyUsed(s: Sched, p: Profile) {
    && p in s.sessions && !Running(s, p)
    && forall q :: q in s.sessions && !Running(s, q) ==> s.sessions[p] <= s.sessions[q]
  }

  predicate At(s: Sched, w: WorkerId, pcs: set<PC>) {
    w in s.workers && s.workers[w].pc in pcs
  }

  /** A worker may give its session up where the code calls dropSession: before the
      connection is checked, when the check fails, and after a failed poll. */
  predicate MayDrop(s: Sched, w: WorkerId) {
    At(s, w, {Started, Checking, Polling, Ending})
  }

  ghost predicate Enabled(limits: Limits, s: Sched, a: Action) {
    match a
    case TryStart(w, p) => w !in s.workers && !Running(s, p) && |s.workers| < limits.maxConcurrency
    case Look(w) => At(s, w, {Started})
    case Reuse(w, _) => At(s, w, {Checking})
    case DropGraceful(w) => MayDrop(s, w)
    case DropAbort(w) => MayDrop(s, w)
    case AbortDone(w) => w in s.workers && s.workers[w].pc.Aborting? && s.used > 0
    case FirstTry(w) => At(s, w, {Wanting})
    case NoCredentials(w) => At(s, w, {Wanting})
    case Evict(w, victim) =>
      && At(s, w, {Evicting})
      && (victim.Some? ==> LeastRecentlyUsed(s, victim.value))
      && (victim.None? ==> forall p :: p in s.sessions ==> Running(s, p))
    case TakePermit(w) => At(s, w, {Waiting}) && s.used < limits.maxOpenConnections
    case CancelWait(w) => At(s, w, {Waiting})
    case DialOk(w, _) => At(s, w, {Dialing})
    case DialFails(w) => At(s, w, {Dialing}) && s.used > 0
    case EndPoll(w) => At(s, w, {Started, Polling})
    case Finish(w) => At(s, w, {Ending})
    case Leave(w) => At(s, w, {Leaving})
    case CloseDone => s.closing > 0 && s.used > 0
    case CloseIdle(p) => p in s.sessions && !Running(s, p)
    case CloseAll => true
  }

  function Goto(s: Sched, w: WorkerId, pc: PC): Sched
    requires w in s.workers
  {
    s.(workers := s.workers[w := s.workers[w].(pc := pc)])
  }

  /** After a session was given up the poll either connects again or is over. */
  function AfterDrop(pc: PC): PC {
    if pc.Checking? then Wanting else Ending
  }

  /** Takes a session out of the cache and starts its graceful close. */
  function StartClose(s: Sched, p: Profile): Sched
    requires p in s.sessions
  {
    s.(sessions := s.sessions - {p}, closing := s.closing + 1)
  }

  ghost function Next(limits: Limits, s: Sched, a: Action): Sched
    requires Enabled(limits, s, a)
  {
    match a
    case TryStart(w, p) => s.(workers := s.workers[w := Worker(p, Started)])
    case Look(w) => Goto(s, w, if s.workers[w].profile in s.sessions then Checking else Wanting)
    case Reuse(w, now) =>
      var p := s.workers[w].profile;
      Goto(if p in s.sessions then s.(sessions := s.sessions[p := now]) else s, w, Polling)
    case DropGraceful(w) =>
      var p := s.workers[w].profile;
      Goto(if p in s.sessions then StartClose(s, p) else s, w, AfterDrop(s.workers[w].pc))
    case DropAbort(w) =>
      var p := s.workers[w].profile;
      if p in s.sessions
      then Goto(s.(sessions := s.sessions - {p}), w, Aborting(AfterDrop(s.workers[w].pc)))
      else Goto(s, w, AfterDrop(s.workers[w].pc))
    case AbortDone(w) => Goto(s.(used := s.used - 1), w, s.workers[w].pc.resume)
    case FirstTry(w) =>
      if s.used < limits.maxOpenConnections then Goto(s.(used := s.used + 1), w, Dialing) else Goto(s, w, Evicting)
    case NoCredentials(w) => Goto(s, w, Ending)
    case Evict(w, victim) => Goto(if victim.Some? then StartClose(s, victim.value) else s, w, Waiting)
    case TakePermit(w) => Goto(s.(used := s.used + 1), w, Dialing)
    case CancelWait(w) => Goto(s, w, Ending)
    case DialOk(w, now) => Goto(s.(sessions := s.sessions[s.workers[w].profile := now]), w, Polling)
    case DialFails(w) => Goto(s.(used := s.used - 1), w, Ending)
    case EndPoll(w) => Goto(s, w, Ending)
    case Finish(w) => Goto(s, w, Leaving)
    case Leave(w) => s.(workers := s.workers - {w})
    case CloseDone => s.(used := s.used - 1, closing := s.closing - 1)
    case CloseIdle(p) => StartClose(s, p)
    case CloseAll => s.(sessions := map[], closing := s.closing + |s.sessions|)
  }

  predicate Initial(s: Sched) {
    s == START
  }

  const START := Sched(0, map[], 0, map[])

  ghost predicate Possible(limits: Limits, s: Sched, run: seq<Action>)
    decreases run
  {
    run == [] || (Enabled(limits, s, run[0]) && Possible(limits, Next(limits, s, run[0]), run[1..]))
  }

  ghost function After(limits: Limits, s: Sched, run: seq<Action>): Sched
    requires Possible(limits, s, run)
    decreases run
  {
    if run == [] then s else After(limits, Next(limits, s, run[0]), run[1..])
  }

  // ---------------------------------------------------------------------------
  // Permit accounting.

  /** The workers that hold a permit themselves. */
  ghost function Holders(workers: map<WorkerId, Worker>): set<WorkerId> {
    set w | w in workers && (workers[w].pc.Dialing? || workers[w].pc.Aborting?)
  }

  /** A worker on its way to a connection has no cached session. */
  predicate Unconnected(pc: PC) {
    pc.Wanting? || pc.Evicting? || pc.Waiting? || pc.Dialing? || pc.Aborting?
  }

  ghost predicate OneWorkerPerProfile(workers: map<WorkerId, Worker>) {
    forall v, w :: v in workers && w in workers && v != w && !workers[v].pc.Leaving? && !workers[w].pc.Leaving? ==>
      workers[v].profile != workers[w].profile
  }

  ghost predicate Accounted(limits: Limits, s: Sched) {
    && s.used == |s.sessions| + |Holders(s.workers)| + s.closing
    && s.used <= limits.maxOpenConnections
    && |s.workers| <= limits.maxConcurrency
    && OneWorkerPerProfile(s.workers)
    && (forall w :: w in s.workers && Unconnected(s.workers[w].pc) ==> s.workers[w].profile !in s.sessions)
    && (forall w :: w in s.workers && s.workers[w].pc.Aborting? ==> s.workers[w].pc.resume in {Wanting, Ending})
  }

  /** One worker moves on, changing at most the cached session of its own profile and
      the numbers in step with the permit it holds. */
  lemma MoveKeeps(limits: Limits, s: Sched, w: WorkerId, pc: PC, next: Sched)
    requires Accounted(limits, s) && w in s.workers && !s.workers[w].pc.Leaving?
    requires next.workers == s.workers[w := s.workers[w].(pc := pc)]
    requires next.used - |next.sessions| - next.closing - Holding(pc) ==
             s.used - |s.sessions| - s.closing - Holding(s.workers[w].pc)
    requires next.used <= limits.maxOpenConnections
    requires next.sessions.Keys <= s.sessions.Keys + {s.workers[w].profile}
    requires Unconnected(pc) ==> s.workers[w].profile !in next.sessions
    requires pc.Aborting? ==> pc.resume in {Wanting, Ending}
    ensures Accounted(limits, next)
  {
    HoldersMove(s.workers, w, pc);
    forall v | v in next.workers && Unconnected(next.workers[v].pc) ensures next.workers[v].profile !in next.sessions {
      if v != w {
        assert next.workers[v] == s.workers[v] && s.workers[v].profile != s.workers[w].profile;
      }
    }
  }

  function Holding(pc: PC): nat {
    if pc.Dialing? || pc.Aborting? then 1 else 0
  }

  lemma HoldersMove(workers: map<WorkerId, Worker>, w: WorkerId, pc: PC)
    requires w in workers
    ensures var next := workers[w := workers[w].(pc := pc)];
            && |next| == |workers|
            && |Holders(next)| == |Holders(workers)| + Holding(pc) - Holding(workers[w].pc)
  {
    var next := workers[w := workers[w].(pc := pc)];
    SameSize(workers, next);
    var rest := Holders(workers) - {w};
    assert Holders(next) - {w} == rest;
    OneMore(Holders(next), w);
    OneMore(Holders(workers), w);
  }

  lemma SameSize(a: map<WorkerId, Worker>, b: map<WorkerId, Worker>)
    requires a.Keys == b.Keys
    ensures |a| == |b|
  {
    assert |a| == |a.Keys| && |b| == |b.Keys|;
  }

  lemma OneMore(ws: set<WorkerId>, w: WorkerId)
    ensures |ws| == |ws - {w}| + (if w in ws then 1 else 0)
  {
    if w !in ws {
      assert ws - {w} == ws;
    }
  }

  lemma Without<S>(sessions: map<Profile, S>, p: Profile)
    requires p in sessions
    ensures |sessions - {p}| == |sessions| - 1
  {
    var less := sessions - {p};
    assert less.Keys == sessions.Keys - {p};
    assert |less| == |less.Keys| && |sessions| == |sessions.Keys|;
  }

  lemma With(sessions: map<Profile, int>, p: Profile, now: int)
    ensures |sessions[p := now]| == |sessions| + (if p in sessions then 0 else 1)
  {
    var more := sessions[p := now];
    assert more.Keys == sessions.Keys + {p};
    assert |more| == |more.Keys| && |sessions| == |sessions.Keys|;
  }

  lemma DropAccounted(limits: Limits, s: Sched, a: Action)
    requires a.DropGraceful? || a.DropAbort?
    requires Accounted(limits, s) && Enabled(limits, s, a)
    ensures Accounted(limits, Next(limits, s, a))
  {
    var p, next := s.workers[a.w].profile, Next(limits, s, a);
    if p in s.sessions {
      Without(s.sessions, p);
    }
    MoveKeeps(limits, s, a.w, next.workers[a.w].pc, next);
  }

  lemma UseAccounted(limits: Limits, s: Sched, a: Action)
    requires a.Reuse? || a.DialOk?
    requires Accounted(limits, s) && Enabled(limits, s, a)
    ensures Accounted(limits, Next(limits, s, a))
  {
    With(s.sessions, s.workers[a.w].profile, a.now);
    MoveKeeps(limits, s, a.w, Polling, Next(limits, s, a));
  }

  lemma PermitAccounted(limits: Limits, s: Sched, a: Action)
    requires a.AbortDone? || a.FirstTry? || a.TakePermit? || a.DialFails?
    requires Accounted(limits, s) && Enabled(limits, s, a)
    ensures Accounted(limits, Next(limits, s, a))
  {
    var next := Next(limits, s, a);
    MoveKeeps(limits, s, a.w, next.workers[a.w].pc, next);
  }

  lemma MoveAccounted(limits: Limits, s: Sched, a: Action)
    requires a.Look? || a.CancelWait? || a.EndPoll? || a.Finish? || a.NoCredentials?
    requires Accounted(limits, s) && Enabled(limits, s, a)
    ensures Accounted(limits, Next(limits, s, a))
  {
    var next := Next(limits, s, a);
    MoveKeeps(limits, s, a.w, next.workers[a.w].pc, next);
  }

  lemma EvictAccounted(limits: Limits, s: Sched, w: WorkerId, victim: Option<Profile>)
    requires Accounted(limits, s) && Enabled(limits, s, Evict(w, victim))
    ensures Accounted(limits, Next(limits, s, Evict(w, victim)))
  {
    if victim.Some? {
      Without(s.sessions, victim.value);
    }
    MoveKeeps(limits, s, w, Waiting, Next(limits, s, Evict(w, victim)));
  }

  lemma AddWorker(workers: map<WorkerId, Worker>, w: WorkerId, p: Profile)
    requires w !in workers && OneWorkerPerProfile(workers)
    requires forall v :: v in workers && !workers[v].pc.Leaving? ==> workers[v].profile != p
    ensures var next := workers[w := Worker(p, Started)];
            |next| == |workers| + 1 && Holders(next) == Holders(workers) && OneWorkerPerProfile(next)
  {
    var next := workers[w := Worker(p, Started)];
    assert next.Keys == workers.Keys + {w};
    assert |next| == |next.Keys| && |workers| == |workers.Keys|;
  }

  lemma StartAccounted(limits: Limits, s: Sched, w: WorkerId, p: Profile)
    requires Accounted(limits, s) && Enabled(limits, s, TryStart(w, p))
    ensures Accounted(limits, Next(limits, s, TryStart(w, p)))
  {
    AddWorker(s.workers, w, p);
  }

  lemma LeaveAccounted(limits: Limits, s: Sched, w: WorkerId)
    requires Accounted(limits, s) && Enabled(limits, s, Leave(w))
    ensures Accounted(limits, Next(limits, s, Leave(w)))
  {
    var next := Next(limits, s, Leave(w));
    assert |next.workers| <= |s.workers| by {
      assert next.workers.Keys == s.workers.Keys - {w};
      assert |next.workers| == |next.workers.Keys| && |s.workers| == |s.workers.Keys|;
    }
    assert Holders(next.workers) == Holders(s.workers);
  }

  lemma CloseAccounted(limits: Limits, s: Sched, a: Action)
    requires a.CloseDone? || a.CloseIdle? || a.CloseAll?
    requires Accounted(limits, s) && Enabled(limits, s, a)
    ensures Accounted(limits, Next(limits, s, a))
  {
    if a.CloseIdle? {
      Without(s.sessions, a.p);
    }
  }

  lemma StepAccounted(limits: Limits, s: Sched, a: Action)
    requires Accounted(limits, s) && Enabled(limits, s, a)
    ensures Accounted(limits, Next(limits, s, a))
  {
    if a.DropGraceful? || a.DropAbort? {
      DropAccounted(limits, s, a);
    } else if a.Reuse? || a.DialOk? {
      UseAccounted(limits, s, a);
    } else if a.AbortDone? || a.FirstTry? || a.TakePermit? || a.DialFails? {
      PermitAccounted(limits, s, a);
    } else if a.Evict? {
      EvictAccounted(limits, s, a.w, a.victim);
    } else if a.TryStart? {
      StartAccounted(limits, s, a.w, a.p);
    } else if a.Leave? {
      LeaveAccounted(limits, s, a.w);
    } else if a.CloseDone? || a.CloseIdle? || a.CloseAll? {
      CloseAccounted(limits, s, a);
    } else {
      MoveAccounted(limits, s, a);
    }
  }

  /** In every interleaving the permits in use are the cached sessions, the workers that
      dial or abort and the closes in progress, never above the limit. */
  lemma {:induction false} PermitAccounting(limits: Limits, s: Sched, run: seq<Action>)
    requires Accounted(limits, s) && Possible(limits, s, run)
    ensures Accounted(limits, After(limits, s, run))
    decreases run
  {
    if run != [] {
      StepAccounted(limits, s, run[0]);
      PermitAccounting(limits, Next(limits, s, run[0]), run[1..]);
    }
  }

  // ---------------------------------------------------------------------------
  // A worker never waits for running polls alone.

  /** The running workers whose session is in the cache. */
  ghost function Connected(s: Sched): set<WorkerId> {
    set w | w in s.workers && !s.workers[w].pc.Leaving? && s.workers[w].profile in s.sessions
  }

  lemma {:induction false} ImageSize(workers: map<WorkerId, Worker>, ws: set<WorkerId>, ps: set<Profile>)
    requires ws <= workers.Keys
    requires forall p :: p in ps ==> exists w :: w in ws && workers[w].profile == p
    ensures |ps| <= |ws|
    decreases ps
  {
    if ps != {} {
      var p :| p in ps;
      var w :| w in ws && workers[w].profile == p;
      forall q | q in ps - {p} ensures exists v :: v in ws - {w} && workers[v].profile == q {
        var v :| v in ws && workers[v].profile == q;
        assert v in ws - {w};
      }
      ImageSize(workers, ws - {w}, ps - {p});
      assert |ps| == |ps - {p}| + 1 && |ws| == |ws - {w}| + 1;
    }
  }

  /** If every session belongs to a running poll and nothing is closing, the permits in
      use are fewer than the workers: at most one for each, and none for the waiting one. */
  lemma HeldByPolls(limits: Limits, s: Sched, w: WorkerId)
    requires Accounted(limits, s) && At(s, w, {Evicting, Waiting})
    requires s.closing == 0 && forall p :: p in s.sessions ==> Running(s, p)
    ensures s.used < |s.workers|
  {
    forall p | p in s.sessions.Keys ensures exists v :: v in Connected(s) && s.workers[v].profile == p {
      var v :| v in s.workers && s.workers[v].profile == p && !s.workers[v].pc.Leaving?;
      assert v in Connected(s);
    }
    ImageSize(s.workers, Connected(s), s.sessions.Keys);
    assert |s.sessions| == |s.sessions.Keys| && |s.workers| == |s.workers.Keys|;
    ThreeParts(Connected(s), Holders(s.workers), w, s.workers.Keys);
  }

  lemma ThreeParts(a: set<WorkerId>, b: set<WorkerId>, w: WorkerId, all: set<WorkerId>)
    requires a !! b && w !in a && w !in b && a <= all && b <= all && w in all
    ensures |a| + |b| < |all|
  {
    var parts := a + b + {w};
    assert |parts| == |a| + |b| + 1;
    assert all == parts + (all - parts);
  }

  /** A worker blocked on a permit waits for an idle or a closing session too, not only
      for polls that are running. */
  lemma BlockedByIdleOrClosing(limits: Limits, s: Sched, run: seq<Action>, w: WorkerId)
    requires Sound(limits) && Initial(s) && Possible(limits, s, run)
    requires At(After(limits, s, run), w, {Waiting}) && After(limits, s, run).used == limits.maxOpenConnections
    ensures var end := After(limits, s, run);
            end.closing > 0 || exists p :: p in end.sessions && !Running(end, p)
  {
    PermitAccounting(limits, s, run);
    var end := After(limits, s, run);
    if end.closing == 0 && forall p :: p in end.sessions ==> Running(end, p) {
      HeldByPolls(limits, end, w);
    }
  }

  /** When a worker starts to wait, a permit is free or on its way back. */
  lemma EvictionFreesOne(limits: Limits, s: Sched, run: seq<Action>, w: WorkerId, victim: Option<Profile>)
    requires Sound(limits) && Initial(s) && Possible(limits, s, run)
    requires Enabled(limits, After(limits, s, run), Evict(w, victim))
    ensures var next := Next(limits, After(limits, s, run), Evict(w, victim));
            next.used < limits.maxOpenConnections || next.closing > 0
  {
    PermitAccounting(limits, s, run);
    var now := After(limits, s, run);
    if victim.None? && now.closing == 0 {
      HeldByPolls(limits, now, w);
    }
  }

  /** A worker waits although nothing is closing and every session is being polled: all
      the permits are held by polls. */
  ghost predicate BlockedByPolls(limits: Limits, s: Sched, w: WorkerId) {
    && At(s, w, {Waiting}) && s.used == limits.maxOpenConnections && s.closing == 0
    && forall p :: p in s.sessions ==> Running(s, p)
  }

  /** The workers 0, ..., k - 1 poll their profiles, each on a session of its own. */
  ghost function Busy(k: nat): (s: Sched)
    ensures s.used == k && s.closing == 0 && |s.workers| == k
    ensures forall i: nat :: i in s.sessions <==> i < k
    ensures forall i: nat :: i in s.workers <==> i < k
    ensures forall i: nat :: i in s.workers ==> s.workers[i] == Worker(i, Polling)
  {
    if k == 0 then START
    else
      var s := Busy(k - 1);
      var workers := s.workers[k - 1 := Worker(k - 1, Polling)];
      assert |workers.Keys| == |s.workers.Keys| + 1 by {
        assert workers.Keys == s.workers.Keys + {k - 1};
      }
      Sched(k, s.sessions[k - 1 := 0], 0, workers)
  }

  /** One more worker starts beside k others and wants a connection. */
  lemma StartAnother(limits: Limits, run: seq<Action>, k: nat) returns (more: seq<Action>)
    requires k < limits.maxConcurrency
    requires Possible(limits, START, run) && After(limits, START, run) == Busy(k)
    ensures Possible(limits, START, more)
    ensures After(limits, START, more) == Beside(k, k, Wanting)
  {
    Extend(limits, START, run, TryStart(k, k));
    more := run + [TryStart(k, k)];
    Extend(limits, START, more, Look(k));
    more := more + [Look(k)];
  }

  lemma {:induction false} Occupy(limits: Limits, k: nat) returns (run: seq<Action>)
    requires k <= limits.maxOpenConnections && k <= limits.maxConcurrency
    ensures Possible(limits, START, run) && After(limits, START, run) == Busy(k)
  {
    if k == 0 {
      run := [];
    } else {
      var w := k - 1;
      run := Occupy(limits, w);
      run := StartAnother(limits, run, w);
      run := ConnectAnother(limits, run, w);
    }
  }

  ghost function Beside(k: nat, used: nat, pc: PC): Sched {
    Busy(k).(used := used, workers := Busy(k).workers[k := Worker(k, pc)])
  }

  lemma Dials(limits: Limits, k: nat)
    requires k < limits.maxOpenConnections
    ensures Enabled(limits, Beside(k, k, Wanting), FirstTry(k))
    ensures Next(limits, Beside(k, k, Wanting), FirstTry(k)) == Beside(k, k + 1, Dialing)
  {
    var workers: map<WorkerId, Worker> := Busy(k).workers;
    var wanting: map<WorkerId, Worker> := workers[k := Worker(k, Wanting)];
    assert wanting[k := Worker(k, Dialing)] == workers[k := Worker(k, Dialing)];
  }

  lemma Connects(limits: Limits, k: nat)
    ensures Enabled(limits, Beside(k, k + 1, Dialing), DialOk(k, 0))
    ensures Next(limits, Beside(k, k + 1, Dialing), DialOk(k, 0)) == Busy(k + 1)
  {
    var workers: map<WorkerId, Worker> := Busy(k).workers;
    var dialing: map<WorkerId, Worker> := workers[k := Worker(k, Dialing)];
    assert dialing[k := Worker(k, Polling)] == workers[k := Worker(k, Polling)];
  }

  lemma ConnectAnother(limits: Limits, run: seq<Action>, k: nat) returns (more: seq<Action>)
    requires k < limits.maxOpenConnections && Possible(limits, START, run)
    requires After(limits, START, run) == Beside(k, k, Wanting)
    ensures Possible(limits, START, more) && After(limits, START, more) == Busy(k + 1)
  {
    Dials(limits, k);
    Extend(limits, START, run, FirstTry(k));
    more := run + [FirstTry(k)];
    Connects(limits, k);
    Extend(limits, START, more, DialOk(k, 0));
    more := more + [DialOk(k, 0)];
  }

  /** With fewer connections than pollers, whatever the numbers, a worker can wait for
      running polls alone. */
  lemma TooFewConnections(limits: Limits) returns (run: seq<Action>)
    requires limits.maxOpenConnections < limits.maxConcurrency
    ensures Possible(limits, START, run)
    ensures BlockedByPolls(limits, After(limits, START, run), limits.maxOpenConnections)
  {
    var k := limits.maxOpenConnections;
    run := Occupy(limits, k);
    run := StartAnother(limits, run, k);
    Extend(limits, START, run, FirstTry(k));
    run := run + [FirstTry(k)];
    var s := After(limits, START, run);
    forall p | p in s.sessions ensures Running(s, p) {
      assert p in s.workers && s.workers[p] == Worker(p, Polling);
    }
    Extend(limits, START, run, Evict(k, None));
    run := run + [Evict(k, None)];
    var end := After(limits, START, run);
    forall p | p in end.sessions ensures Running(end, p) {
      assert p in end.workers && end.workers[p] == Worker(p, Polling);
    }
  }

  /** The check of the configuration is exact: in every interleaving a blocked worker
      waits for more than running polls if and only if there are at least as many
      connections as pollers. */
  lemma ConnectionsExact(limits: Limits)
    requires limits.maxConcurrency >= 1
    ensures Sound(limits) <==> forall s, w :: Reachable(limits, s) ==> !BlockedByPolls(limits, s, w)
  {
    if Sound(limits) {
      forall s, w | Reachable(limits, s) ensures !BlockedByPolls(limits, s, w) {
        var run :| Possible(limits, START, run) && After(limits, START, run) == s;
        if BlockedByPolls(limits, s, w) {
          BlockedByIdleOrClosing(limits, START, run, w);
        }
      }
    } else {
      var run := TooFewConnections(limits);
      assert Reachable(limits, After(limits, START, run));
    }
  }

  /** A state that some interleaving leads to. */
  ghost predicate Reachable(limits: Limits, s: Sched) {
    exists run :: Possible(limits, START, run) && After(limits, START, run) == s
  }

  lemma {:induction false} Extend(limits: Limits, s: Sched, run: seq<Action>, a: Action)
    requires Possible(limits, s, run) && Enabled(limits, After(limits, s, run), a)
    ensures Possible(limits, s, run + [a])
    ensures After(limits, s, run + [a]) == Next(limits, After(limits, s, run), a)
    decreases run
  {
    if run == [] {
      assert run + [a] == [a] && [a][1..] == [];
    } else {
      assert (run + [a])[0] == run[0] && (run + [a])[1..] == run[1..] + [a];
      Extend(limits, Next(limits, s, run[0]), run[1..], a);
    }
  }

  // ---------------------------------------------------------------------------
  // The last use of a session.

  /** A step by which a profile uses its session at the given time. */
  ghost predicate Uses(s: Sched, a: Action, p: Profile, at: int) {
    || (a.DialOk? && a.now == at && a.w in s.workers && s.workers[a.w].profile == p)
    || (a.Reuse? && a.now == at && a.w in s.workers && s.workers[a.w].profile == p && p in s.sessions)
  }

  /** The states of a run. */
  ghost predicate Trace(limits: Limits, states: seq<Sched>, run: seq<Action>) {
    && |states| == |run| + 1
    && forall i :: 0 <= i < |run| ==>
         Enabled(limits, states[i], run[i]) && states[i + 1] == Next(limits, states[i], run[i])
  }

  lemma {:induction false} TraceOf(limits: Limits, s: Sched, run: seq<Action>) returns (states: seq<Sched>)
    requires Possible(limits, s, run)
    ensures Trace(limits, states, run) && states[0] == s && states[|run|] == After(limits, s, run)
    decreases run
  {
    states := [s];
    if run != [] {
      var rest := TraceOf(limits, Next(limits, s, run[0]), run[1..]);
      states := [s] + rest;
      forall i | 0 <= i < |run|
        ensures Enabled(limits, states[i], run[i]) && states[i + 1] == Next(limits, states[i], run[i]) {
        if i > 0 {
          assert run[i] == run[1..][i - 1] && states[i] == rest[i - 1] && states[i + 1] == rest[i];
        }
      }
    }
  }

  /** Among the first n steps, step k is the last use, and was at the given time. */
  ghost predicate LastUse(states: seq<Sched>, run: seq<Action>, k: nat, n: nat, p: Profile, at: int)
    requires k < n <= |run| < |states|
  {
    Uses(states[k], run[k], p, at) && forall i, t :: k < i < n ==> !Uses(states[i], run[i], p, t)
  }

  /** What one step does to the last use of a session. */
  lemma UseStep(limits: Limits, s: Sched, a: Action, p: Profile)
    requires Enabled(limits, s, a) && p in Next(limits, s, a).sessions
    ensures (exists at :: Uses(s, a, p, at)) ==> Uses(s, a, p, Next(limits, s, a).sessions[p])
    ensures (forall at :: !Uses(s, a, p, at)) ==> p in s.sessions && Next(limits, s, a).sessions[p] == s.sessions[p]
  {
    if a.DialOk? || a.Reuse? {
      assert Uses(s, a, p, a.now) || s.workers[a.w].profile != p || a.Reuse?;
    }
  }

  lemma {:induction false} LastUseUpTo(limits: Limits, states: seq<Sched>, run: seq<Action>, n: nat, p: Profile)
    returns (k: nat)
    requires Trace(limits, states, run) && states[0] == START && n <= |run| && p in states[n].sessions
    ensures k < n && LastUse(states, run, k, n, p, states[n].sessions[p])
    decreases n
  {
    var s, a := states[n - 1], run[n - 1];
    UseStep(limits, s, a, p);
    if t :| Uses(s, a, p, t) {
      k := n - 1;
    } else {
      k := LastUseUpTo(limits, states, run, n - 1, p);
    }
  }

  /** In every interleaving a cached session has the time at which its profile used it last,
      so the eviction takes the one used longest ago. */
  lemma LastUseKnown(limits: Limits, run: seq<Action>, p: Profile) returns (states: seq<Sched>, k: nat)
    requires Possible(limits, START, run) && p in After(limits, START, run).sessions
    ensures Trace(limits, states, run) && states[0] == START && states[|run|] == After(limits, START, run)
    ensures k < |run| && LastUse(states, run, k, |run|, p, After(limits, START, run).sessions[p])
  {
    states := TraceOf(limits, START, run);
    k := LastUseUpTo(limits, states, run, |run|, p);
  }

  // ---------------------------------------------------------------------------
  // The loops over the cache, each under the scheduler's mutex.

  datatype Session = Session(lastUsed: int, idleTimeout: int)

  /** The scheduler's fields are those of a state of the interleaving. */
  ghost predicate Reflects(sessions: map<Profile, Session>, running: set<Profile>, closing: nat, s: Sched) {
    && s.sessions.Keys == sessions.Keys && (forall p :: p in sessions ==> s.sessions[p] == sessions[p].lastUsed)
    && s.closing == closing && (forall p :: p in running <==> Running(s, p))
  }

  /** The choice is a possible eviction, and its effect is that of the step. */
  ghost predicate EvictionReflected(
    limits: Limits, s: Sched, w: WorkerId, victim: Option<Profile>,
    sessions: map<Profile, Session>, running: set<Profile>, closing: nat)
  {
    && Enabled(limits, s, Evict(w, victim))
    && Reflects(sessions, running, closing, Next(limits, s, Evict(w, victim)))
  }

  lemma ReflectEviction(
    limits: Limits, sessions: map<Profile, Session>, running: set<Profile>, closing: nat,
    s: Sched, w: WorkerId, victim: Option<Profile>)
    requires Reflects(sessions, running, closing, s) && At(s, w, {Evicting})
    requires victim.None? ==> sessions.Keys <= running
    requires victim.Some? ==>
               && victim.value in sessions && victim.value !in running
               && forall p :: p in sessions && p !in running ==> sessions[victim.value].lastUsed <= sessions[p].lastUsed
    ensures var rest := if victim.Some? then sessions - {victim.value} else sessions;
            EvictionReflected(limits, s, w, victim, rest, running, if victim.Some? then closing + 1 else closing)
  {
    assert Enabled(limits, s, Evict(w, victim));
    var next := Goto(if victim.Some? then StartClose(s, victim.value) else s, w, Waiting);
    forall p ensures Running(s, p) <==> Running(next, p) {
      if Running(s, p) {
        var v :| v in s.workers && s.workers[v].profile == p && !s.workers[v].pc.Leaving?;
        assert v in next.workers && next.workers[v].profile == p;
      }
      if Running(next, p) {
        var v :| v in next.workers && next.workers[v].profile == p && !next.workers[v].pc.Leaving?;
        assert v in s.workers && s.workers[v].profile == p;
      }
    }
  }

  class Scheduler {
    const limits: Limits
    var slots: nat
    var running: set<Profile>
    var sessions: map<Profile, Session>
    var closing: nat

    constructor (limits: Limits)
      ensures this.limits == limits && slots == 0 && running == {} && sessions == map[] && closing == 0
    {
      this.limits := limits;
      slots, running, sessions, closing := 0, {}, map[], 0;
    }

    /** Takes a free slot for a profile that no worker has. */
    method TryStart(p: Profile) returns (started: bool)
      modifies this`slots, this`running
      ensures started <==> p !in old(running) && old(slots) < limits.maxConcurrency
      ensures started ==> running == old(running) + {p} && slots == old(slots) + 1
      ensures !started ==> running == old(running) && slots == old(slots)
    {
      if p in running {
        return false;
      }
      if slots >= limits.maxConcurrency {
        return false;
      }
      slots := slots + 1;
      running := running + {p};
      started := true;
    }

    /** Closes the idle session used longest ago; a polling one is never touched. */
    method EvictForCapacity() returns (victim: Option<Profile>)
      modifies this`sessions, this`closing
      ensures victim.None? ==> sessions == old(sessions) && closing == old(closing) && sessions.Keys <= running
      ensures victim.Some? ==>
                && victim.value in old(sessions) && victim.value !in running
                && (forall p :: p in old(sessions) && p !in running ==>
                      old(sessions)[victim.value].lastUsed <= old(sessions)[p].lastUsed)
                && sessions == old(sessions) - {victim.value} && closing == old(closing) + 1
      ensures forall limits, s, w :: Reflects(old(sessions), running, old(closing), s) && At(s, w, {Evicting}) ==>
                EvictionReflected(limits, s, w, victim, sessions, running, closing)
    {
      victim := None;
      var todo := sessions.Keys;
      while todo != {}
        invariant todo <= sessions.Keys
        invariant victim.None? ==> forall p :: p in sessions && p !in todo ==> p in running
        invariant victim.Some? ==> victim.value in sessions && victim.value !in running
        invariant victim.Some? ==> forall p :: p in sessions && p !in todo && p !in running ==>
                    sessions[victim.value].lastUsed <= sessions[p].lastUsed
        decreases todo
      {
        var p :| p in todo;
        todo := todo - {p};
        if p in running {
          continue;
        }
        if victim.None? || sessions[p].lastUsed < sessions[victim.value].lastUsed {
          victim := Some(p);
        }
      }
      if victim.Some? {
        sessions := sessions - {victim.value};
        closing := closing + 1;
      }
      forall limits, s, w | Reflects(old(sessions), running, old(closing), s) && At(s, w, {Evicting})
        ensures EvictionReflected(limits, s, w, victim, sessions, running, closing)
      {
        ReflectEviction(limits, old(sessions), running, old(closing), s, w, victim);
      }
    }

    /** Closes exactly the sessions that are idle for their whole timeout. */
    method CloseIdleSessions(now: int)
      modifies this`sessions, this`closing
      ensures forall p :: p in sessions <==>
                p in old(sessions) && (p in running || now - old(sessions)[p].lastUsed < old(sessions)[p].idleTimeout)
      ensures forall p :: p in sessions ==> sessions[p] == old(sessions)[p]
      ensures |sessions| + closing == |old(sessions)| + old(closing)
    {
      var all := sessions;
      var todo := all.Keys;
      while todo != {}
        invariant todo <= all.Keys
        invariant forall p :: p in sessions <==>
                    p in all && (p in todo || p in running || now - all[p].lastUsed < all[p].idleTimeout)
        invariant forall p :: p in sessions ==> sessions[p] == all[p]
        invariant |sessions| + closing == |all| + old(closing)
        decreases todo
      {
        var p :| p in todo;
        todo := todo - {p};
        if p in running || now - all[p].lastUsed < all[p].idleTimeout {
          continue;
        }
        Without(sessions, p);
        sessions := sessions - {p};
        closing := closing + 1;
      }
    }

    /** Hands every cached session over to the closes that shutdown waits for. */
    method CloseAllSessions()
      modifies this`sessions, this`closing
      ensures sessions == map[] && closing == old(closing) + |old(sessions)|
    {
      var all := sessions;
      sessions := map[];
      var rest := all;
      while |rest| > 0
        invariant sessions == map[] && closing + |rest| == old(closing) + |all|
        decreases |rest|
      {
        var p :| p in rest;
        Without(rest, p);
        rest := rest - {p};
        closing := closing + 1;
      }
    }
  }
}
