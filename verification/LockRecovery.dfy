/**
Whatever the other agents did, and wherever they crashed: a lock directory that nobody has touched for
`staleMs` is removed by one reclaim, and a newcomer running alone, none of whose operations fails,
enters the section within a bounded number of operations.
 */
module LockRecovery {
  import opened Wrappers
  import opened LockProtocol
  import opened LockSafety

  // ----- Steps in which no operation fails -----

  /** The next operation of `a` has the outcome that the state of the disk dictates. */
  predicate OkStep(c: Config, s: State, a: Agent, s': State)
    requires a in s.agents
  {
    var ag := s.agents[a];
    match ag.pc
    case MakePending =>
      if a in s.pending then s' == Goto(s, a, CleanUnlink(true))
      else s' == Goto(s.(pending := s.pending[a := Dir(map[], s.clock)]), a, WriteMarker)
    case WriteMarker =>
      if a !in s.pending || Owner(a) in s.pending[a].entries then s' == Goto(s, a, CleanUnlink(true))
      else s' == s.(pending := s.pending[a := Dir(s.pending[a].entries[Owner(a) := s.clock], s.clock)],
                    agents := s.agents[a := ag.(pc := ProbeLock, markedAt := s.clock)])
    case ProbeLock => s' == Goto(s, a, if s.lock.Absent? then Install else CleanUnlink(true))
    case Install =>
      if a !in s.pending || !CanInstall(c, s.lock) then s' == Goto(s, a, CleanUnlink(true))
      else s' == s.(lock := Present(s.pending[a]), pending := s.pending - {a},
                    agents := s.agents[a := ag.(pc := Critical, installed := true)])
    case CleanUnlink(retry) => s' == Goto(s.(pending := UnlinkPending(s, a)), a, CleanRmdir(retry))
    case CleanRmdir(retry) => s' == Goto(s.(pending := RmdirPending(s, a)), a, if retry then ListLock else Done)
    case ListLock =>
      s' == Goto(s, a, if s.lock.Absent? then Backoff
                       else StatLock(s.lock.dir.entries.Keys, true, s.lock.dir.entries.Keys, 0))
    case StatLock(seen, dirTodo, todo, latest) =>
      if s.lock.Absent? || exists m | m in todo :: !Holds(s.lock, m) then s' == Goto(s, a, Backoff)
      else
        || (dirTodo && s' == Goto(s, a, StatLock(seen, false, todo, Max(latest, s.lock.dir.mtime))))
        || (exists m | m in todo ::
              Holds(s.lock, m)
              && s' == Goto(s, a, StatLock(seen, dirTodo, todo - {m}, Max(latest, s.lock.dir.entries[m]))))
        || (!dirTodo && todo == {} && Judge(c, s, a, seen, latest, s'))
    case ClaimOwner(b) => if Holds(s.lock, Owner(b)) then s' == ClaimResult(s, a, b) else s' == Goto(s, a, Backoff)
    case ClaimUnlink(n) => s' == Goto(s.(lock := UnlinkLock(s.lock, Stale(a, n), s.clock)), a, ReclaimRmdir)
    case SweepUnlink(todo) =>
      if todo == {} then s' == Goto(s, a, ReclaimRmdir)
      else exists m | m in todo ::
        s' == Goto(s.(lock := UnlinkLock(s.lock, m, s.clock)), a, SweepUnlink(todo - {m}))
    case ReclaimRmdir => s' == Goto(s.(lock := RmdirLock(s.lock)), a, Backoff)
    case Backoff => s' == Goto(s, a, if s.clock >= ag.deadline then Done else MakePending)
    case Critical => s' == Goto(s, a, DropOwner)
    case DropOwner =>
      if !Holds(s.lock, Owner(a)) then s' == Goto(s, a, Done)
      else s' == s.(lock := Present(Renamed(s.lock.dir, Owner(a), Release(a), s.clock)),
                    agents := s.agents[a := ag.(pc := DropUnlink, released := true)])
    case DropUnlink => s' == Goto(s.(lock := UnlinkLock(s.lock, Release(a), s.clock)), a, DropRmdir)
    case DropRmdir => s' == Goto(s.(lock := RmdirLock(s.lock)), a, Done)
    case _ => false
  }

  predicate InRelease(pc: Pc) { pc.Critical? || pc.DropOwner? || pc.DropUnlink? || pc.DropRmdir? }

  lemma OkReclaimIsStep(c: Config, s: State, a: Agent, s': State)
    requires a in s.agents && OkStep(c, s, a, s') && !AcquireStep(c, s, a, s') && !InRelease(s.agents[a].pc)
    ensures ReclaimStep(c, s, a, s')
  {
  }

  lemma OkReleaseIsStep(c: Config, s: State, a: Agent, s': State)
    requires a in s.agents && OkStep(c, s, a, s') && InRelease(s.agents[a].pc)
    ensures ReleaseStep(c, s, a, s')
  {
  }

  lemma OkIsStep(c: Config, s: State, a: Agent, s': State)
    requires a in s.agents && OkStep(c, s, a, s')
    ensures StepBy(c, s, a, s')
  {
    if InRelease(s.agents[a].pc) { OkReleaseIsStep(c, s, a, s'); }
    else if !AcquireStep(c, s, a, s') { OkReclaimIsStep(c, s, a, s'); }
  }

  predicate OkStepAt(c: Config, a: Agent, run: seq<State>, i: nat)
    requires 0 < i < |run|
  {
    Tick(run[i - 1], run[i]) || (a in run[i - 1].agents && OkStep(c, run[i - 1], a, run[i]))
  }

  /** A run of `a` alone in which none of its operations fails; time may pass between them. */
  ghost predicate OkRun(c: Config, a: Agent, run: seq<State>) {
    |run| > 0 && forall i: nat | 0 < i < |run| :: OkStepAt(c, a, run, i)
  }

  /** How many operations, as opposed to passings of time, lead to state `n`. */
  function Operations(run: seq<State>, n: nat): nat
    requires n < |run|
  {
    if n == 0 then 0 else Operations(run, n - 1) + (if run[n].clock == run[n - 1].clock then 1 else 0)
  }

  // ----- One reclaim -----

  /** Nothing in the lock directory, nor the directory, changed for `staleMs`. */
  predicate Untouched(c: Config, s: State) {
    s.lock.Present? ==>
      && s.lock.dir.mtime + c.staleMs <= s.clock
      && forall m | m in s.lock.dir.entries :: s.lock.dir.entries[m] + c.staleMs <= s.clock
  }

  predicate Reclaimable(c: Config, s: State) {
    s.lock.Present? ==> AtMostOne(s.lock.dir.entries.Keys) && Untouched(c, s)
  }

  /** The reclaimer is on its way, and the directory is as its next operation expects it. */
  predicate Reclaiming(c: Config, s: State, a: Agent) {
    && a in s.agents && s.lock.Present?
    && var e := s.lock.dir.entries.Keys;
       match s.agents[a].pc
       case ListLock => Reclaimable(c, s)
       case StatLock(seen, dirTodo, todo, latest) =>
         Reclaimable(c, s) && seen == e && todo <= seen && latest + c.staleMs <= s.clock
       case ClaimOwner(b) => e == {Owner(b)}
       case ClaimUnlink(n) => e == {Stale(a, n)}
       case SweepUnlink(todo) => e == todo && AtMostOne(todo)
       case ReclaimRmdir => e == {}
       case _ => false
  }

  /** How many operations the reclaim still takes, at most. */
  function ReclaimRank(pc: Pc): nat {
    match pc
    case ListLock => 7
    case StatLock(_, dirTodo, todo, _) => 4 + (if dirTodo then 1 else 0) + (if todo == {} then 0 else 1)
    case ClaimOwner(_) => 3
    case SweepUnlink(todo) => if todo == {} then 2 else 3
    case ClaimUnlink(_) => 2
    case ReclaimRmdir => 1
    case _ => 0
  }

  /** The lock is gone and the reclaimer is about to try again. */
  predicate Cleared(s: State, a: Agent) { s.lock.Absent? && a in s.agents && s.agents[a].pc == Backoff }

  /** What a step of the reclaim leaves alone. */
  predicate KeepsRest(s: State, a: Agent, s': State)
    requires a in s.agents
  {
    && a in s'.agents && s'.pending == s.pending && s'.clock == s.clock
    && s'.agents[a].deadline == s.agents[a].deadline
  }

  predicate ReclaimsOn(c: Config, s: State, a: Agent, s': State)
    requires a in s.agents
  {
    && KeepsRest(s, a, s')
    && (Cleared(s', a)
        || (Reclaiming(c, s', a) && ReclaimRank(s'.agents[a].pc) < ReclaimRank(s.agents[a].pc)))
  }

  lemma OnlyElement(ms: set<Marker>, m: Marker)
    requires AtMostOne(ms) && m in ms
    ensures ms == {m} && ms - {m} == {}
  {
  }

  lemma ListProgress(c: Config, s: State, a: Agent, s': State)
    requires Reclaiming(c, s, a) && s.agents[a].pc.ListLock? && OkStep(c, s, a, s')
    ensures ReclaimsOn(c, s, a, s')
  {
  }

  lemma ClaimIsProgress(c: Config, s: State, a: Agent, m: Marker)
    requires Reclaiming(c, s, a) && s.agents[a].pc.StatLock? && m.Owner? && s.agents[a].pc.seen == {m}
    ensures ReclaimsOn(c, s, a, Goto(s, a, ClaimOwner(m.a)))
  {
  }

  lemma SweepIsProgress(c: Config, s: State, a: Agent)
    requires Reclaiming(c, s, a) && s.agents[a].pc.StatLock?
    ensures ReclaimsOn(c, s, a, Goto(s, a, SweepUnlink(s.agents[a].pc.seen)))
  {
  }

  lemma JudgeProgress(c: Config, s: State, a: Agent, s': State)
    requires Reclaiming(c, s, a) && s.agents[a].pc.StatLock?
    requires Judge(c, s, a, s.agents[a].pc.seen, s.agents[a].pc.latest, s')
    ensures ReclaimsOn(c, s, a, s')
  {
    var seen := s.agents[a].pc.seen;
    if m :| m in seen && m.Owner? {
      OnlyElement(seen, m);
      ClaimIsProgress(c, s, a, m);
    } else {
      SweepIsProgress(c, s, a);
    }
  }

  lemma StatProgress(c: Config, s: State, a: Agent, s': State)
    requires Reclaiming(c, s, a) && s.agents[a].pc.StatLock? && OkStep(c, s, a, s')
    ensures ReclaimsOn(c, s, a, s')
  {
    var pc := s.agents[a].pc;
    assert forall m | m in pc.todo :: Holds(s.lock, m);
    if !pc.dirTodo && pc.todo == {} && Judge(c, s, a, pc.seen, pc.latest, s') {
      JudgeProgress(c, s, a, s');
    } else if pc.dirTodo && s' == Goto(s, a, StatLock(pc.seen, false, pc.todo, Max(pc.latest, s.lock.dir.mtime))) {
    } else {
      var m :| m in pc.todo && Holds(s.lock, m)
        && s' == Goto(s, a, StatLock(pc.seen, pc.dirTodo, pc.todo - {m}, Max(pc.latest, s.lock.dir.entries[m])));
      StatMarkerProgress(c, s, a, m);
    }
  }

  lemma StatMarkerProgress(c: Config, s: State, a: Agent, m: Marker)
    requires Reclaiming(c, s, a) && s.agents[a].pc.StatLock? && m in s.agents[a].pc.todo && Holds(s.lock, m)
    ensures var pc := s.agents[a].pc;
            ReclaimsOn(c, s, a, Goto(s, a, StatLock(pc.seen, pc.dirTodo, pc.todo - {m},
                                                    Max(pc.latest, s.lock.dir.entries[m]))))
  {
    OnlyElement(s.agents[a].pc.todo, m);
  }

  lemma ClaimProgress(c: Config, s: State, a: Agent, s': State)
    requires Reclaiming(c, s, a) && OkStep(c, s, a, s')
    requires s.agents[a].pc.ClaimOwner? || s.agents[a].pc.ClaimUnlink? || s.agents[a].pc.ReclaimRmdir?
    ensures ReclaimsOn(c, s, a, s')
  {
    var d := s.lock.dir;
    match s.agents[a].pc
    case ClaimOwner(b) =>
      assert Holds(s.lock, Owner(b));
      assert s'.lock.dir.entries.Keys == {Stale(a, s.agents[a].claims)};
    case ClaimUnlink(n) => assert Without(d, Stale(a, n), s.clock).entries.Keys == {};
    case ReclaimRmdir => assert d.entries == map[];
  }

  lemma SweepProgress(c: Config, s: State, a: Agent, s': State)
    requires Reclaiming(c, s, a) && s.agents[a].pc.SweepUnlink? && OkStep(c, s, a, s')
    ensures ReclaimsOn(c, s, a, s')
  {
    var todo := s.agents[a].pc.todo;
    if todo != {} {
      var m :| m in todo && s' == Goto(s.(lock := UnlinkLock(s.lock, m, s.clock)), a, SweepUnlink(todo - {m}));
      OnlyElement(todo, m);
      assert Without(s.lock.dir, m, s.clock).entries.Keys == {};
    }
  }

  lemma ReclaimProgress(c: Config, s: State, a: Agent, s': State)
    requires Reclaiming(c, s, a) && OkStep(c, s, a, s')
    ensures ReclaimsOn(c, s, a, s')
  {
    match s.agents[a].pc
    case ListLock => ListProgress(c, s, a, s');
    case StatLock(_, _, _, _) => StatProgress(c, s, a, s');
    case SweepUnlink(_) => SweepProgress(c, s, a, s');
    case _ => ClaimProgress(c, s, a, s');
  }

  /** The reclaim is never stuck: some operation can be performed. */
  lemma ReclaimIsEnabled(c: Config, s: State, a: Agent) returns (s': State)
    requires Reclaiming(c, s, a)
    ensures OkStep(c, s, a, s')
  {
    match s.agents[a].pc
    case ListLock =>
      s' := Goto(s, a, StatLock(s.lock.dir.entries.Keys, true, s.lock.dir.entries.Keys, 0));
    case StatLock(seen, dirTodo, todo, latest) =>
      assert forall m | m in todo :: Holds(s.lock, m);
      if dirTodo {
        s' := Goto(s, a, StatLock(seen, false, todo, Max(latest, s.lock.dir.mtime)));
      } else if m :| m in todo {
        s' := Goto(s, a, StatLock(seen, dirTodo, todo - {m}, Max(latest, s.lock.dir.entries[m])));
        assert Holds(s.lock, m);
      } else {
        s' := JudgeIsEnabled(c, s, a, seen, latest);
      }
    case ClaimOwner(b) => s' := ClaimResult(s, a, b);
    case ClaimUnlink(n) => s' := Goto(s.(lock := UnlinkLock(s.lock, Stale(a, n), s.clock)), a, ReclaimRmdir);
    case SweepUnlink(todo) =>
      if m :| m in todo {
        s' := Goto(s.(lock := UnlinkLock(s.lock, m, s.clock)), a, SweepUnlink(todo - {m}));
      } else {
        s' := Goto(s, a, ReclaimRmdir);
      }
    case ReclaimRmdir => s' := Goto(s.(lock := RmdirLock(s.lock)), a, Backoff);
  }

  lemma JudgeIsEnabled(c: Config, s: State, a: Agent, seen: set<Marker>, latest: nat) returns (s': State)
    requires a in s.agents && AtMostOne(seen) && latest + c.staleMs <= s.clock
    ensures Judge(c, s, a, seen, latest, s')
  {
    if m :| m in seen && m.Owner? {
      s' := Goto(s, a, ClaimOwner(m.a));
      assert forall n | n in seen :: n == m;
    } else {
      s' := Goto(s, a, SweepUnlink(seen));
    }
  }

  lemma TickKeepsReclaiming(c: Config, s: State, a: Agent, s': State)
    requires Reclaiming(c, s, a) && Tick(s, s')
    ensures Reclaiming(c, s', a)
  {
  }

  /** In a failure-free run the lock is cleared, or every operation so far has brought that nearer. */
  lemma {:induction false} ReclaimUpTo(c: Config, a: Agent, run: seq<State>, n: nat) returns (cleared: bool, i: nat)
    requires OkRun(c, a, run) && Reclaiming(c, run[0], a) && n < |run|
    ensures cleared ==> i <= n && Cleared(run[i], a) && Operations(run, i) <= ReclaimRank(run[0].agents[a].pc)
    ensures !cleared ==> Reclaiming(c, run[n], a)
                         && ReclaimRank(run[n].agents[a].pc) + Operations(run, n) <= ReclaimRank(run[0].agents[a].pc)
  {
    cleared, i := false, 0;
    if n > 0 {
      cleared, i := ReclaimUpTo(c, a, run, n - 1);
      if !cleared {
        assert OkStepAt(c, a, run, n);
        if Tick(run[n - 1], run[n]) {
          TickKeepsReclaiming(c, run[n - 1], a, run[n]);
        } else {
          ReclaimProgress(c, run[n - 1], a, run[n]);
          cleared, i := Cleared(run[n], a), n;
        }
      }
    }
  }

  /**
  One reclaim of an untouched lock directory removes it, whether it holds an owner, a leftover release or
  stale marker, or nothing: in every failure-free run, however time passes, within seven operations.
   */
  lemma OneReclaimRemovesUntouched(c: Config, run: seq<State>, a: Agent, n: nat) returns (i: nat)
    requires OkRun(c, a, run) && Inv(c, run[0]) && Untouched(c, run[0]) && run[0].lock.Present?
    requires a in run[0].agents && run[0].agents[a].pc == ListLock && n < |run| && Operations(run, n) >= 7
    ensures i <= n && Cleared(run[i], a) && Operations(run, i) <= 7
  {
    var cleared;
    cleared, i := ReclaimUpTo(c, a, run, n);
  }

  // ----- The whole acquisition -----

  predicate Entered(s: State, a: Agent) {
    a in s.agents && s.agents[a].pc == Critical && Holds(s.lock, Owner(a))
  }

  predicate Marked(s: State, a: Agent) { a in s.pending && s.pending[a].entries.Keys == {Owner(a)} }

  /** The acquisition is on its way, with time left and a lock that is absent or can be reclaimed. */
  predicate Ready(c: Config, s: State, a: Agent) {
    && a in s.agents && s.clock < s.agents[a].deadline && Reclaimable(c, s)
    && match s.agents[a].pc
       case MakePending => a !in s.pending
       case WriteMarker => a in s.pending && s.pending[a].entries == map[]
       case ProbeLock => Marked(s, a)
       case Install => Marked(s, a) && s.lock.Absent?
       case CleanUnlink(retry) => retry && Marked(s, a) && s.lock.Present?
       case CleanRmdir(retry) => retry && a in s.pending && s.pending[a].entries == map[] && s.lock.Present?
       case ListLock => a !in s.pending && s.lock.Present?
       case Backoff => a !in s.pending && s.lock.Absent?
       case _ => false
  }

  /** On its way, or in the middle of the reclaim. */
  predicate OnTheWay(c: Config, s: State, a: Agent) {
    Ready(c, s, a)
    || (Reclaiming(c, s, a) && a !in s.pending && s.clock < s.agents[a].deadline)
  }

  const MAX_STEPS: nat := 17

  /** How many operations are left until the section is entered, at most. */
  function Rank(s: State, a: Agent): (n: nat)
    requires a in s.agents
    ensures n <= MAX_STEPS
  {
    var later := if s.lock.Present? then 13 else 0;
    match s.agents[a].pc
    case Install => 1
    case ProbeLock => later + 2
    case WriteMarker => later + 3
    case MakePending => later + 4
    case Backoff => 5
    case CleanRmdir(_) => 13
    case CleanUnlink(_) => 14
    case pc => 5 + ReclaimRank(pc)
  }

  predicate Advances(c: Config, s: State, a: Agent, s': State)
    requires a in s.agents
  {
    Entered(s', a) || (OnTheWay(c, s', a) && Rank(s', a) < Rank(s, a))
  }

  predicate Building(pc: Pc) { pc.MakePending? || pc.WriteMarker? || pc.ProbeLock? || pc.Install? }

  lemma BuildAdvances(c: Config, s: State, a: Agent, s': State)
    requires Ready(c, s, a) && Building(s.agents[a].pc) && OkStep(c, s, a, s')
    ensures Advances(c, s, a, s')
  {
    match s.agents[a].pc
    case WriteMarker => assert map[][Owner(a) := s.clock].Keys == {Owner(a)};
    case Install => assert Owner(a) in s.pending[a].entries;
    case _ =>
  }

  lemma RetreatAdvances(c: Config, s: State, a: Agent, s': State)
    requires Ready(c, s, a) && !Building(s.agents[a].pc) && !s.agents[a].pc.ListLock? && OkStep(c, s, a, s')
    ensures Advances(c, s, a, s')
  {
    if s.agents[a].pc.CleanUnlink? { assert Owner(a) in s.pending[a].entries; }
  }

  lemma StepAdvances(c: Config, s: State, a: Agent, s': State)
    requires OnTheWay(c, s, a) && OkStep(c, s, a, s')
    ensures Advances(c, s, a, s')
  {
    if Reclaiming(c, s, a) { ReclaimProgress(c, s, a, s'); }
    else if Building(s.agents[a].pc) { BuildAdvances(c, s, a, s'); }
    else { RetreatAdvances(c, s, a, s'); }
  }

  lemma IsEnabled(c: Config, s: State, a: Agent) returns (s': State)
    requires OnTheWay(c, s, a)
    ensures OkStep(c, s, a, s')
  {
    if Reclaiming(c, s, a) {
      s' := ReclaimIsEnabled(c, s, a);
    } else {
      var ag := s.agents[a];
      match ag.pc
      case MakePending => s' := Goto(s.(pending := s.pending[a := Dir(map[], s.clock)]), a, WriteMarker);
      case WriteMarker =>
        s' := s.(pending := s.pending[a := Dir(s.pending[a].entries[Owner(a) := s.clock], s.clock)],
                 agents := s.agents[a := ag.(pc := ProbeLock, markedAt := s.clock)]);
      case ProbeLock => s' := Goto(s, a, if s.lock.Absent? then Install else CleanUnlink(true));
      case Install =>
        s' := s.(lock := Present(s.pending[a]), pending := s.pending - {a},
                 agents := s.agents[a := ag.(pc := Critical, installed := true)]);
      case CleanUnlink(retry) => s' := Goto(s.(pending := UnlinkPending(s, a)), a, CleanRmdir(retry));
      case CleanRmdir(retry) => s' := Goto(s.(pending := RmdirPending(s, a)), a, if retry then ListLock else Done);
      case Backoff => s' := Goto(s, a, MakePending);
    }
  }

  lemma TickKeepsOnTheWay(c: Config, s: State, a: Agent, s': State)
    requires OnTheWay(c, s, a) && Tick(s, s') && s'.clock < s.agents[a].deadline
    ensures OnTheWay(c, s', a) && Rank(s', a) == Rank(s, a)
  {
  }

  /** As long as `a` waits, the deadline of `a` is ahead. */
  predicate InTime(run: seq<State>, a: Agent) {
    forall i | 0 <= i < |run| :: a in run[i].agents ==> run[i].clock < run[i].agents[a].deadline
  }

  /** In a failure-free run the section is entered, or every operation so far has brought that nearer. */
  lemma {:induction false} EntersUpTo(c: Config, a: Agent, run: seq<State>, n: nat) returns (entered: bool, i: nat)
    requires OkRun(c, a, run) && InTime(run, a) && OnTheWay(c, run[0], a) && n < |run|
    ensures entered ==> i <= n && Entered(run[i], a) && Operations(run, i) <= Rank(run[0], a)
    ensures !entered ==> OnTheWay(c, run[n], a) && Rank(run[n], a) + Operations(run, n) <= Rank(run[0], a)
  {
    entered, i := false, 0;
    if n > 0 {
      entered, i := EntersUpTo(c, a, run, n - 1);
      if !entered {
        assert OkStepAt(c, a, run, n);
        if Tick(run[n - 1], run[n]) {
          TickKeepsOnTheWay(c, run[n - 1], a, run[n]);
        } else {
          StepAdvances(c, run[n - 1], a, run[n]);
          OkKeepsDeadline(c, run[n - 1], a, run[n]);
          entered, i := Entered(run[n], a), n;
        }
      }
    }
  }

  lemma OkKeepsDeadline(c: Config, s: State, a: Agent, s': State)
    requires a in s.agents && OkStep(c, s, a, s')
    ensures s'.clock == s.clock && a in s'.agents && s'.agents[a].deadline == s.agents[a].deadline
  {
  }

  /** And there is such a run. */
  lemma {:induction false} SomeOkRunEnters(c: Config, a: Agent, s: State) returns (run: seq<State>)
    requires OnTheWay(c, s, a)
    ensures OkRun(c, a, run) && InTime(run, a) && run[0] == s && Entered(run[|run| - 1], a)
    decreases Rank(s, a)
  {
    var s' := IsEnabled(c, s, a);
    StepAdvances(c, s, a, s');
    OkKeepsDeadline(c, s, a, s');
    var rest := [s'];
    if !Entered(s', a) { rest := SomeOkRunEnters(c, a, s'); }
    run := [s] + rest;
    PrependStep(c, a, s, rest);
  }

  lemma PrependStep(c: Config, a: Agent, s: State, rest: seq<State>)
    requires OkRun(c, a, rest) && InTime(rest, a) && a in s.agents && s.clock < s.agents[a].deadline
    requires OkStep(c, s, a, rest[0])
    ensures OkRun(c, a, [s] + rest) && InTime([s] + rest, a)
  {
    var run := [s] + rest;
    forall i: nat | 0 < i < |run| ensures OkStepAt(c, a, run, i) {
      if i > 1 { assert OkStepAt(c, a, rest, i - 1); }
    }
  }

  // ----- A newcomer -----

  predicate InReap(pc: Pc) {
    pc.ReapList? || pc.ReapStat? || pc.ReapRead? || pc.ReapStatMarker?
    || pc.ReapProbe? || pc.ReapUnlink? || pc.ReapRmdir?
  }

  predicate ReapStepAt(c: Config, a: Agent, run: seq<State>, i: nat)
    requires 0 < i < |run|
  {
    a in run[i - 1].agents && ReapStep(c, run[i - 1], a, run[i])
  }

  /** The pass over abandoned directories that comes before the acquisition, in which anything may fail. */
  ghost predicate ReapRun(c: Config, a: Agent, run: seq<State>) {
    |run| > 0 && forall i: nat | 0 < i < |run| :: ReapStepAt(c, a, run, i)
  }

  /** The newcomer is in that pass, or has just left it with its deadline set. */
  predicate Newcomer(c: Config, s: State, a: Agent) {
    && a in s.agents && a !in s.pending && Reclaimable(c, s)
    && (InReap(s.agents[a].pc) || (s.agents[a].pc == MakePending && s.clock < s.agents[a].deadline))
  }

  lemma ReapKeepsNewcomer(c: Config, s: State, a: Agent, s': State)
    requires c.Valid() && Newcomer(c, s, a) && ReapStep(c, s, a, s')
    ensures Newcomer(c, s', a)
  {
    assert s'.lock == s.lock && s'.clock == s.clock;
  }

  lemma {:induction false} ReapRunKeepsNewcomer(c: Config, a: Agent, run: seq<State>, i: nat)
    requires c.Valid() && ReapRun(c, a, run) && Newcomer(c, run[0], a) && i < |run|
    ensures Newcomer(c, run[i], a)
  {
    if i > 0 {
      ReapRunKeepsNewcomer(c, a, run, i - 1);
      assert ReapStepAt(c, a, run, i);
      ReapKeepsNewcomer(c, run[i - 1], a, run[i]);
    }
  }

  /** Whatever the reaping pass of a newcomer does, it then enters within its rank if nothing fails in time. */
  lemma NewcomerEnters(c: Config, a: Agent, reap: seq<State>, more: seq<State>, n: nat)
    returns (k: nat, some: seq<State>)
    requires c.Valid() && ReapRun(c, a, reap) && Newcomer(c, reap[0], a)
    requires a in reap[|reap| - 1].agents && !InReap(reap[|reap| - 1].agents[a].pc)
    requires OkRun(c, a, more) && InTime(more, a) && more[0] == reap[|reap| - 1] && n < |more|
    ensures a in more[0].agents && more[0].agents[a].pc == MakePending
    ensures var rank := Rank(more[0], a);
            Operations(more, n) >= rank ==> k <= n && Entered(more[k], a) && Operations(more, k) <= rank
    ensures OkRun(c, a, some) && InTime(some, a) && some[0] == reap[|reap| - 1] && Entered(some[|some| - 1], a)
  {
    ReapRunKeepsNewcomer(c, a, reap, |reap| - 1);
    assert Ready(c, more[0], a);
    var entered;
    entered, k := EntersUpTo(c, a, more, n);
    some := SomeOkRunEnters(c, a, more[0]);
  }

  /** After `staleMs` in which nobody else acts, a call that begins is such a newcomer. */
  lemma BeginsAsNewcomer(c: Config, s: State, a: Agent, s1: State, s2: State)
    requires Inv(c, s) && Tick(s, s1) && s1.clock >= s.clock + c.staleMs && Begin(c, s1, a, s2)
    ensures Newcomer(c, s2, a)
  {
    forall b | b in s.pending ensures b != a { assert PendingOk(s, b); }
  }

  /**
  No permanent deadlock. From every reachable state, with all other agents frozen or crashed where they
  are, let `staleMs` pass. Whatever its reaping pass does, a newcomer that then starts enters within 17
  further operations in every run in which none of them fails and its deadline does not pass, and such
  a run exists.
   */
  lemma NoPermanentDeadlock(
      c: Config, run: seq<State>, i: nat, a: Agent, s1: State, reap: seq<State>, more: seq<State>, n: nat)
    returns (k: nat, some: seq<State>)
    requires c.Valid() && IsRun(c, run) && Init(run[0]) && i < |run|
    requires Tick(run[i], s1) && s1.clock >= run[i].clock + c.staleMs
    requires ReapRun(c, a, reap) && Begin(c, s1, a, reap[0])
    requires a in reap[|reap| - 1].agents && !InReap(reap[|reap| - 1].agents[a].pc)
    requires OkRun(c, a, more) && InTime(more, a) && more[0] == reap[|reap| - 1] && n < |more|
    ensures Operations(more, n) >= MAX_STEPS ==> k <= n && Entered(more[k], a) && Operations(more, k) <= MAX_STEPS
    ensures OkRun(c, a, some) && InTime(some, a) && some[0] == reap[|reap| - 1] && Entered(some[|some| - 1], a)
  {
    RunKeepsInv(c, run, i);
    BeginsAsNewcomer(c, run[i], a, s1, reap[0]);
    k, some := NewcomerEnters(c, a, reap, more, n);
  }
}
