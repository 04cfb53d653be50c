/**
Safety of the telemetry lock over every run: one entry at most, removal aimed only at the marker
that was observed, and mutual exclusion up to markers claimed as stale.
 */
module LockSafety {
  import opened Wrappers
  import opened LockProtocol

  // ----- The inductive invariant -----

  predicate AtMostOne(ms: set<Marker>) {
    forall m, n | m in ms && n in ms :: m == n
  }

  /** An owner marker in the lock directory belongs to an agent that neither dropped nor lost it. */
  predicate OwnerOk(s: State, b: Agent, time: nat) {
    && b in s.agents
    && var ag := s.agents[b];
       ag.installed && !ag.released && ag.stolenAt.None? && ag.markedAt == time
  }

  predicate LockOk(s: State) {
    s.lock.Present? ==>
      var d := s.lock.dir;
      && AtMostOne(d.entries.Keys)
      && d.mtime <= s.clock
      && (forall m | m in d.entries :: d.entries[m] <= s.clock && (m.Owner? ==> OwnerOk(s, m.a, d.entries[m])))
  }

  predicate PendingOk(s: State, b: Agent)
    requires b in s.pending
  {
    var d := s.pending[b];
    && b in s.agents && !s.agents[b].installed
    && d.mtime <= s.clock
    && d.entries.Keys <= {Owner(b)}
    && (Owner(b) in d.entries ==> d.entries[Owner(b)] == s.agents[b].markedAt)
  }

  predicate Installed(s: State, b: Agent) { b in s.agents && s.agents[b].installed }

  /** What an agent knows at each program point. */
  predicate PcOk(c: Config, s: State, a: Agent)
    requires a in s.agents
  {
    var ag := s.agents[a];
    match ag.pc
    case Critical => ag.installed && !ag.released
    case DropOwner => ag.installed && !ag.released
    case DropUnlink => ag.installed
    case DropRmdir => ag.installed
    case Done => true
    case Crashed => true
    case WriteMarker => !ag.installed && a in s.pending && s.pending[a].entries == map[]
    case ProbeLock => !ag.installed && a in s.pending && Owner(a) in s.pending[a].entries
    case Install => !ag.installed && a in s.pending && Owner(a) in s.pending[a].entries
    case StatLock(seen, dirTodo, todo, latest) =>
      && !ag.installed && todo <= seen && AtMostOne(seen)
      && (forall m | m in seen && m.Owner? ::
            && Installed(s, m.a)
            && (m !in todo ==> s.agents[m.a].markedAt <= latest))
    case ClaimOwner(b) => !ag.installed && Installed(s, b) && s.agents[b].markedAt + c.staleMs <= s.clock
    case SweepUnlink(todo) => !ag.installed && (forall m | m in todo :: !m.Owner?)
    case ReapStat(b) => !ag.installed && b in s.agents
    case ReapRead(b, _) => !ag.installed && b in s.agents
    case ReapStatMarker(b, _, _) => !ag.installed && b in s.agents
    case ReapProbe(b, _) => !ag.installed && b in s.agents
    case ReapUnlink(b) => !ag.installed && b in s.agents && Stopped(s.agents[b].pc)
    case ReapRmdir(b) => !ag.installed && b in s.agents && Stopped(s.agents[b].pc)
    case _ => !ag.installed
  }

  predicate HistoryOk(c: Config, s: State, a: Agent)
    requires a in s.agents
  {
    var ag := s.agents[a];
    && ag.markedAt <= s.clock
    && (ag.released ==> ag.installed)
    && (ag.installed && !ag.released && ag.stolenAt.None? ==> Holds(s.lock, Owner(a)))
    && (ag.stolenAt.Some? ==> ag.installed && ag.markedAt + c.staleMs <= ag.stolenAt.value <= s.clock)
  }

  predicate Inv(c: Config, s: State) {
    && LockOk(s)
    && (forall b | b in s.pending :: PendingOk(s, b))
    && (forall a | a in s.agents :: PcOk(c, s, a) && HistoryOk(c, s, a))
  }

  // ----- Preservation, one group of steps at a time -----

  lemma TickKeepsInv(c: Config, s: State, s': State)
    requires Inv(c, s) && Tick(s, s')
    ensures Inv(c, s')
  {
    forall a | a in s'.agents ensures PcOk(c, s', a) && HistoryOk(c, s', a) {
      assert PcOk(c, s, a) && HistoryOk(c, s, a);
    }
    forall b | b in s'.pending ensures PendingOk(s', b) { assert PendingOk(s, b); }
  }

  /** Agents other than `a` keep what they know if their history, the markers they wait on and their directory stay. */
  ghost predicate Frame(s: State, a: Agent, s': State) {
    && s'.clock == s.clock
    && s'.agents.Keys == s.agents.Keys
    && (forall b | b in s.agents && b != a ::
          && s'.agents[b] == s.agents[b]
          && (b in s.pending && !Stopped(s.agents[b].pc) ==> b in s'.pending && s'.pending[b] == s.pending[b]))
    && (a in s.agents ==>
          && !Stopped(s.agents[a].pc)
          && (s.agents[a].installed ==> s'.agents[a].installed && s'.agents[a].markedAt == s.agents[a].markedAt))
    && (forall b | b != a && Holds(s.lock, Owner(b)) :: Holds(s'.lock, Owner(b)))
  }

  lemma OthersKeep(c: Config, s: State, a: Agent, s': State, b: Agent)
    requires Inv(c, s) && a in s.agents && Frame(s, a, s')
    requires b in s.agents && b != a
    ensures PcOk(c, s', b) && HistoryOk(c, s', b)
  {
    assert PcOk(c, s, b) && HistoryOk(c, s, b);
  }

  /** Enough to check after a step of `a`: its own program point, the lock path and the pending directories. */
  lemma InvFromFrame(c: Config, s: State, a: Agent, s': State)
    requires Inv(c, s) && a in s.agents && Frame(s, a, s')
    requires PcOk(c, s', a) && HistoryOk(c, s', a) && LockOk(s')
    requires forall b | b in s'.pending :: PendingOk(s', b)
    ensures Inv(c, s')
  {
    forall b | b in s'.agents && b != a ensures PcOk(c, s', b) && HistoryOk(c, s', b) {
      OthersKeep(c, s, a, s', b);
    }
  }

  lemma BeginKeepsInv(c: Config, s: State, a: Agent, s': State)
    requires Inv(c, s) && Begin(c, s, a, s')
    ensures Inv(c, s')
  {
    forall b | b in s'.agents ensures PcOk(c, s', b) && HistoryOk(c, s', b) {
      if b != a { assert PcOk(c, s, b) && HistoryOk(c, s, b); }
    }
    forall b | b in s'.pending ensures PendingOk(s', b) { assert PendingOk(s, b); }
  }

  /** A step that only moves the program counter of `a`. */
  lemma QuietKeepsInv(c: Config, s: State, a: Agent, pc: Pc)
    requires Inv(c, s) && a in s.agents && !Stopped(s.agents[a].pc)
    requires PcOk(c, Goto(s, a, pc), a)
    ensures Inv(c, Goto(s, a, pc))
  {
    var s' := Goto(s, a, pc);
    assert HistoryOk(c, s, a);
    forall b | b in s'.pending ensures PendingOk(s', b) { assert PendingOk(s, b); }
    InvFromFrame(c, s, a, s');
  }

  /** A step that unlinks a non-owner entry of the lock directory, or removes the directory when empty. */
  lemma LockEditKeepsInv(c: Config, s: State, a: Agent, lock: LockPath, m: Marker, pc: Pc)
    requires Inv(c, s) && a in s.agents && !Stopped(s.agents[a].pc)
    requires lock == RmdirLock(s.lock) || (!m.Owner? && lock == UnlinkLock(s.lock, m, s.clock))
    requires PcOk(c, Goto(s.(lock := lock), a, pc), a)
    ensures Inv(c, Goto(s.(lock := lock), a, pc))
  {
    var s' := Goto(s.(lock := lock), a, pc);
    assert HistoryOk(c, s, a);
    forall b | b in s'.pending ensures PendingOk(s', b) { assert PendingOk(s, b); }
    InvFromFrame(c, s, a, s');
  }

  /** A step that clears or removes a pending directory of `a` itself or of an agent that has stopped. */
  lemma PendingEditKeepsInv(c: Config, s: State, a: Agent, b: Agent, pending: map<Agent, Dir>, pc: Pc)
    requires Inv(c, s) && a in s.agents && !Stopped(s.agents[a].pc)
    requires b in s.agents && (b == a || Stopped(s.agents[b].pc))
    requires pending == UnlinkPending(s, b) || pending == RmdirPending(s, b)
    requires PcOk(c, Goto(s.(pending := pending), a, pc), a)
    ensures Inv(c, Goto(s.(pending := pending), a, pc))
  {
    var s' := Goto(s.(pending := pending), a, pc);
    assert HistoryOk(c, s, a);
    forall x | x in s'.pending ensures PendingOk(s', x) { EditedPendingOk(c, s, a, b, pending, pc, x); }
    InvFromFrame(c, s, a, s');
  }

  lemma EditedPendingOk(c: Config, s: State, a: Agent, b: Agent, pending: map<Agent, Dir>, pc: Pc, x: Agent)
    requires Inv(c, s) && a in s.agents && b in s.agents && x in pending
    requires pending == UnlinkPending(s, b) || pending == RmdirPending(s, b)
    ensures PendingOk(Goto(s.(pending := pending), a, pc), x)
  {
    assert PendingOk(s, x);
  }

  lemma CrashKeepsInv(c: Config, s: State, a: Agent, s': State)
    requires Inv(c, s) && a in s.agents && Crash(s, a, s')
    ensures Inv(c, s')
  {
    QuietKeepsInv(c, s, a, Crashed);
  }

  lemma ReapRemovalKeepsInv(c: Config, s: State, a: Agent, s': State)
    requires Inv(c, s) && a in s.agents && ReapStep(c, s, a, s') && s'.pending != s.pending
    ensures Inv(c, s')
  {
    var pc := s.agents[a].pc;
    assert PcOk(c, s, a);
    if pc.ReapUnlink? {
      PendingEditKeepsInv(c, s, a, pc.b, UnlinkPending(s, pc.b), ReapRmdir(pc.b));
    } else {
      PendingEditKeepsInv(c, s, a, pc.b, RmdirPending(s, pc.b), ReapList);
    }
  }

  lemma ReapEndKeepsInv(c: Config, s: State, a: Agent, s': State)
    requires Inv(c, s) && a in s.agents && s.agents[a].pc.ReapList?
    requires s' == s.(agents := s.agents[a := s.agents[a].(pc := MakePending, deadline := s.clock + c.timeoutMs)])
    ensures Inv(c, s')
  {
    assert PcOk(c, s, a) && HistoryOk(c, s, a);
    forall b | b in s'.pending ensures PendingOk(s', b) { assert PendingOk(s, b); }
    InvFromFrame(c, s, a, s');
  }

  lemma ReapMoveKeepsInv(c: Config, s: State, a: Agent, s': State)
    requires Inv(c, s) && a in s.agents && ReapStep(c, s, a, s') && s'.pending == s.pending
    requires a in s'.agents && !s'.agents[a].pc.MakePending?
    ensures Inv(c, s')
  {
    var pc := s'.agents[a].pc;
    assert PcOk(c, s, a);
    assert s' == Goto(s, a, pc);
    assert pc.ReapStat? ==> PendingOk(s, pc.b);
    QuietKeepsInv(c, s, a, pc);
  }

  lemma ReapKeepsInv(c: Config, s: State, a: Agent, s': State)
    requires Inv(c, s) && a in s.agents && ReapStep(c, s, a, s')
    ensures Inv(c, s')
  {
    if s'.pending != s.pending { ReapRemovalKeepsInv(c, s, a, s'); }
    else if s'.agents[a].pc.MakePending? { ReapEndKeepsInv(c, s, a, s'); }
    else { ReapMoveKeepsInv(c, s, a, s'); }
  }

  lemma MakePendingKeepsInv(c: Config, s: State, a: Agent)
    requires Inv(c, s) && a in s.agents && s.agents[a].pc.MakePending? && a !in s.pending
    ensures Inv(c, Goto(s.(pending := s.pending[a := Dir(map[], s.clock)]), a, WriteMarker))
  {
    var s' := Goto(s.(pending := s.pending[a := Dir(map[], s.clock)]), a, WriteMarker);
    assert PcOk(c, s, a) && HistoryOk(c, s, a);
    forall b | b in s'.pending ensures PendingOk(s', b) { if b != a { assert PendingOk(s, b); } }
    InvFromFrame(c, s, a, s');
  }

  lemma WriteMarkerKeepsInv(c: Config, s: State, a: Agent, s': State)
    requires Inv(c, s) && a in s.agents && s.agents[a].pc.WriteMarker? && a in s.pending
    requires s' == s.(pending := s.pending[a := Dir(s.pending[a].entries[Owner(a) := s.clock], s.clock)],
                      agents := s.agents[a := s.agents[a].(pc := ProbeLock, markedAt := s.clock)])
    ensures Inv(c, s')
  {
    assert PcOk(c, s, a) && HistoryOk(c, s, a) && PendingOk(s, a);
    forall b | b in s'.pending ensures PendingOk(s', b) { assert PendingOk(s, b); }
    InvFromFrame(c, s, a, s');
  }

  lemma InstallKeepsInv(c: Config, s: State, a: Agent, s': State)
    requires Inv(c, s) && a in s.agents && s.agents[a].pc.Install? && a in s.pending && CanInstall(c, s.lock)
    requires s' == s.(lock := Present(s.pending[a]), pending := s.pending - {a},
                      agents := s.agents[a := s.agents[a].(pc := Critical, installed := true)])
    ensures Inv(c, s')
  {
    assert PcOk(c, s, a) && HistoryOk(c, s, a) && PendingOk(s, a);
    forall b | b in s'.pending ensures PendingOk(s', b) { assert PendingOk(s, b); }
    assert LockOk(s');
    InvFromFrame(c, s, a, s');
  }

  lemma AcquireKeepsInv(c: Config, s: State, a: Agent, s': State)
    requires Inv(c, s) && a in s.agents && AcquireStep(c, s, a, s')
    ensures Inv(c, s')
  {
    assert PcOk(c, s, a) && HistoryOk(c, s, a);
    var pc, pc' := s.agents[a].pc, s'.agents[a].pc;
    if s' == Goto(s, a, pc') {
      QuietKeepsInv(c, s, a, pc');
    } else if pc.MakePending? {
      MakePendingKeepsInv(c, s, a);
    } else if pc.WriteMarker? {
      WriteMarkerKeepsInv(c, s, a, s');
    } else if pc.Install? {
      InstallKeepsInv(c, s, a, s');
    } else if pc.CleanUnlink? {
      PendingEditKeepsInv(c, s, a, a, UnlinkPending(s, a), pc');
    } else {
      PendingEditKeepsInv(c, s, a, a, RmdirPending(s, a), pc');
    }
  }

  lemma DropOwnerKeepsInv(c: Config, s: State, a: Agent, s': State)
    requires Inv(c, s) && a in s.agents && s.agents[a].pc.DropOwner? && Holds(s.lock, Owner(a))
    requires s' == s.(lock := Present(Renamed(s.lock.dir, Owner(a), Release(a), s.clock)),
                      agents := s.agents[a := s.agents[a].(pc := DropUnlink, released := true)])
    ensures Inv(c, s')
  {
    assert PcOk(c, s, a) && HistoryOk(c, s, a);
    forall b | b in s'.pending ensures PendingOk(s', b) { assert PendingOk(s, b); }
    assert LockOk(s');
    InvFromFrame(c, s, a, s');
  }

  lemma ReleaseKeepsInv(c: Config, s: State, a: Agent, s': State)
    requires Inv(c, s) && a in s.agents && ReleaseStep(c, s, a, s')
    ensures Inv(c, s')
  {
    assert PcOk(c, s, a) && HistoryOk(c, s, a);
    var pc, pc' := s.agents[a].pc, s'.agents[a].pc;
    if s' == Goto(s, a, pc') {
      QuietKeepsInv(c, s, a, pc');
    } else if pc.DropOwner? {
      DropOwnerKeepsInv(c, s, a, s');
    } else {
      LockEditKeepsInv(c, s, a, s'.lock, Release(a), pc');
    }
  }

  lemma ClaimKeepsInv(c: Config, s: State, a: Agent, b: Agent)
    requires Inv(c, s) && a in s.agents && s.agents[a].pc == ClaimOwner(b) && Holds(s.lock, Owner(b))
    ensures Inv(c, ClaimResult(s, a, b))
  {
    var s' := ClaimResult(s, a, b);
    assert PcOk(c, s, a) && HistoryOk(c, s, a);
    assert OwnerOk(s, b, s.lock.dir.entries[Owner(b)]);
    forall x | x in s'.agents ensures PcOk(c, s', x) && HistoryOk(c, s', x) {
      assert PcOk(c, s, x) && HistoryOk(c, s, x);
    }
    forall x | x in s'.pending ensures PendingOk(s', x) { assert PendingOk(s, x); }
  }

  lemma StatKeepsInv(c: Config, s: State, a: Agent, s': State)
    requires Inv(c, s) && a in s.agents && s.agents[a].pc.StatLock? && ReclaimStep(c, s, a, s')
    ensures Inv(c, s')
  {
    assert PcOk(c, s, a);
    var pc := s.agents[a].pc;
    assert s' == Goto(s, a, s'.agents[a].pc);
    forall m | Holds(s.lock, m) && m.Owner? ensures OwnerOk(s, m.a, s.lock.dir.entries[m]) { }
    assert PcOk(c, s', a) by {
      if !pc.dirTodo && pc.todo == {} && Judge(c, s, a, pc.seen, pc.latest, s') {
      } else if s'.agents[a].pc.StatLock? {
        assert s'.agents[a].pc.todo <= pc.todo;
      }
    }
    QuietKeepsInv(c, s, a, s'.agents[a].pc);
  }

  lemma ListKeepsInv(c: Config, s: State, a: Agent, s': State)
    requires Inv(c, s) && a in s.agents && s.agents[a].pc.ListLock? && ReclaimStep(c, s, a, s')
    ensures Inv(c, s')
  {
    assert PcOk(c, s, a);
    forall m | Holds(s.lock, m) && m.Owner? ensures OwnerOk(s, m.a, s.lock.dir.entries[m]) { }
    QuietKeepsInv(c, s, a, s'.agents[a].pc);
  }

  lemma SweepKeepsInv(c: Config, s: State, a: Agent, s': State)
    requires Inv(c, s) && a in s.agents && s.agents[a].pc.SweepUnlink? && ReclaimStep(c, s, a, s')
    ensures Inv(c, s')
  {
    assert PcOk(c, s, a);
    var todo := s.agents[a].pc.todo;
    if s' == Goto(s, a, s'.agents[a].pc) {
      QuietKeepsInv(c, s, a, s'.agents[a].pc);
    } else {
      var m :| m in todo && s' == Goto(s.(lock := UnlinkLock(s.lock, m, s.clock)), a, SweepUnlink(todo - {m}));
      LockEditKeepsInv(c, s, a, s'.lock, m, s'.agents[a].pc);
    }
  }

  lemma ReclaimKeepsInv(c: Config, s: State, a: Agent, s': State)
    requires Inv(c, s) && a in s.agents && ReclaimStep(c, s, a, s')
    ensures Inv(c, s')
  {
    assert PcOk(c, s, a);
    match s.agents[a].pc
    case ListLock => ListKeepsInv(c, s, a, s');
    case StatLock(_, _, _, _) => StatKeepsInv(c, s, a, s');
    case SweepUnlink(_) => SweepKeepsInv(c, s, a, s');
    case ClaimOwner(b) =>
      if s' == Goto(s, a, Backoff) { QuietKeepsInv(c, s, a, Backoff); } else { ClaimKeepsInv(c, s, a, b); }
    case ClaimUnlink(n) =>
      if s' == Goto(s, a, ReclaimRmdir) { QuietKeepsInv(c, s, a, ReclaimRmdir); }
      else { LockEditKeepsInv(c, s, a, s'.lock, Stale(a, n), ReclaimRmdir); }
    case ReclaimRmdir =>
      if s' == Goto(s, a, Backoff) { QuietKeepsInv(c, s, a, Backoff); }
      else { LockEditKeepsInv(c, s, a, s'.lock, Stale(a, 0), Backoff); }
  }

  lemma NextKeepsInv(c: Config, s: State, s': State)
    requires Inv(c, s) && Next(c, s, s')
    ensures Inv(c, s')
  {
    if Tick(s, s') {
      TickKeepsInv(c, s, s');
    } else if a :| Begin(c, s, a, s') {
      BeginKeepsInv(c, s, a, s');
    } else {
      var a :| StepBy(c, s, a, s');
      if Crash(s, a, s') { CrashKeepsInv(c, s, a, s'); }
      else if ReapStep(c, s, a, s') { ReapKeepsInv(c, s, a, s'); }
      else if AcquireStep(c, s, a, s') { AcquireKeepsInv(c, s, a, s'); }
      else if ReclaimStep(c, s, a, s') { ReclaimKeepsInv(c, s, a, s'); }
      else { ReleaseKeepsInv(c, s, a, s'); }
    }
  }

  lemma {:induction false} RunKeepsInv(c: Config, run: seq<State>, i: nat)
    requires IsRun(c, run) && Init(run[0]) && i < |run|
    ensures Inv(c, run[i])
  {
    if i > 0 {
      RunKeepsInv(c, run, i - 1);
      assert StepAt(c, run, i);
      NextKeepsInv(c, run[i - 1], run[i]);
    }
  }

  // ----- What every run guarantees -----

  /** The lock directory is empty or holds a single entry at every moment. */
  lemma LockHoldsAtMostOneEntry(c: Config, run: seq<State>, i: nat)
    requires IsRun(c, run) && Init(run[0]) && i < |run|
    ensures run[i].lock.Present? ==> |run[i].lock.dir.entries| <= 1
    ensures run[i].lock.Present? ==> run[i].lock.dir.entries == map[] || exists m :: run[i].lock.dir.entries.Keys == {m}
  {
    RunKeepsInv(c, run, i);
    if run[i].lock.Present? {
      var e := run[i].lock.dir.entries;
      if m :| m in e {
        assert e.Keys == {m};
        assert |e.Keys| == 1;
      }
    }
  }

  /** The lock path carries the marker of `b` exactly while `b` has neither dropped nor lost it. */
  lemma OwnershipIsExact(c: Config, run: seq<State>, i: nat, b: Agent)
    requires IsRun(c, run) && Init(run[0]) && i < |run|
    ensures Holds(run[i].lock, Owner(b)) <==>
            b in run[i].agents && run[i].agents[b].installed
            && !run[i].agents[b].released && run[i].agents[b].stolenAt.None?
  {
    RunKeepsInv(c, run, i);
    assert b in run[i].agents ==> HistoryOk(c, run[i], b);
  }

  /** Agent `b` renames its own marker to its release marker. */
  predicate DropsOwn(s: State, b: Agent, s': State) {
    && At(s, b, DropOwner) && Holds(s.lock, Owner(b))
    && s'.lock == Present(Renamed(s.lock.dir, Owner(b), Release(b), s.clock))
    && b in s'.agents && s'.agents[b].released
  }

  predicate At(s: State, b: Agent, pc: Pc) { b in s.agents && s.agents[b].pc == pc }

  /** Agent `a` claims the marker of `b`, which it saw to be at least `staleMs` old. */
  predicate ClaimsStale(c: Config, s: State, a: Agent, b: Agent, s': State) {
    && a != b && At(s, a, ClaimOwner(b)) && Holds(s.lock, Owner(b))
    && s'.lock == Present(Renamed(s.lock.dir, Owner(b), Stale(a, s.agents[a].claims), s.clock))
    && b in s.agents && b in s'.agents
    && s'.agents[b].stolenAt == Some(s.clock) && s.agents[b].markedAt + c.staleMs <= s.clock
  }

  ghost predicate Spares(c: Config, s: State, b: Agent, s': State) {
    s'.lock == s.lock || DropsOwn(s, b, s') || exists a :: ClaimsStale(c, s, a, b, s')
  }

  lemma AcquireSparesOwner(c: Config, s: State, a: Agent, s': State, b: Agent)
    requires Inv(c, s) && a in s.agents && Holds(s.lock, Owner(b))
    requires Crash(s, a, s') || ReapStep(c, s, a, s') || AcquireStep(c, s, a, s')
    ensures s'.lock == s.lock
  {
  }

  lemma ReclaimSparesOwner(c: Config, s: State, a: Agent, s': State, b: Agent)
    requires Inv(c, s) && a in s.agents && Holds(s.lock, Owner(b)) && ReclaimStep(c, s, a, s')
    ensures Spares(c, s, b, s')
  {
    assert OwnerOk(s, b, s.lock.dir.entries[Owner(b)]) && PcOk(c, s, a);
    match s.agents[a].pc
    case ClaimOwner(x) =>
      if s'.lock != s.lock {
        assert x == b;
        assert ClaimsStale(c, s, a, b, s');
      }
    case ClaimUnlink(n) => assert Stale(a, n) !in s.lock.dir.entries;
    case SweepUnlink(todo) => assert forall m | m in todo :: m !in s.lock.dir.entries;
    case _ =>
  }

  lemma ReleaseSparesOwner(c: Config, s: State, a: Agent, s': State, b: Agent)
    requires Inv(c, s) && a in s.agents && Holds(s.lock, Owner(b)) && ReleaseStep(c, s, a, s')
    ensures Spares(c, s, b, s')
  {
    assert Release(a) !in s.lock.dir.entries;
    if Holds(s.lock, Owner(a)) { assert Owner(a) == Owner(b); }
  }

  lemma StepSparesOwner(c: Config, s: State, s': State, b: Agent)
    requires Inv(c, s) && Next(c, s, s') && Holds(s.lock, Owner(b))
    ensures Spares(c, s, b, s')
  {
    if !Tick(s, s') && (forall a :: !Begin(c, s, a, s')) {
      var a :| StepBy(c, s, a, s');
      if ReclaimStep(c, s, a, s') { ReclaimSparesOwner(c, s, a, s', b); }
      else if ReleaseStep(c, s, a, s') { ReleaseSparesOwner(c, s, a, s', b); }
      else { AcquireSparesOwner(c, s, a, s', b); }
    }
  }

  /**
  While the lock directory carries the marker of `b`, no step of anyone changes the lock path, except
  the release by `b` and a claim aimed at that very marker after it grew stale; neither removes the directory.
   */
  lemma RemovalIsAimed(c: Config, run: seq<State>, i: nat, b: Agent)
    requires IsRun(c, run) && Init(run[0]) && 0 < i < |run| && Holds(run[i - 1].lock, Owner(b))
    ensures Spares(c, run[i - 1], b, run[i])
  {
    RunKeepsInv(c, run, i - 1);
    assert StepAt(c, run, i);
    StepSparesOwner(c, run[i - 1], run[i], b);
  }

  /** The marker of `a` was claimed by another agent, at least `staleMs` after it was created. */
  predicate OutlivedStale(c: Config, s: State, a: Agent)
    requires a in s.agents
  {
    var ag := s.agents[a];
    ag.stolenAt.Some? && ag.markedAt + c.staleMs <= ag.stolenAt.value <= s.clock
  }

  /** Two agents rotate and append at the same time only if one of them outlived its own marker. */
  lemma MutualExclusion(c: Config, run: seq<State>, i: nat, a: Agent, b: Agent)
    requires IsRun(c, run) && Init(run[0]) && i < |run|
    requires a != b && a in run[i].agents && b in run[i].agents
    requires InSection(run[i].agents[a].pc) && InSection(run[i].agents[b].pc)
    ensures OutlivedStale(c, run[i], a) || OutlivedStale(c, run[i], b)
  {
    RunKeepsInv(c, run, i);
    assert PcOk(c, run[i], a) && PcOk(c, run[i], b);
    assert HistoryOk(c, run[i], a) && HistoryOk(c, run[i], b);
  }

  lemma OnlyReapingTouchesOthers(c: Config, s: State, a: Agent, s': State, b: Agent)
    requires a in s.agents && b in s.pending && a != b
    requires Crash(s, a, s') || AcquireStep(c, s, a, s') || ReclaimStep(c, s, a, s') || ReleaseStep(c, s, a, s')
    ensures b in s'.pending && s'.pending[b] == s.pending[b]
  {
  }

  lemma ReapTouchesOnlyStopped(c: Config, s: State, a: Agent, s': State, b: Agent)
    requires a in s.agents && b in s.agents && b in s.pending && a != b && PcOk(c, s, a) && ReapStep(c, s, a, s')
    ensures s'.lock == s.lock
    ensures (b in s'.pending && s'.pending[b] == s.pending[b]) || Stopped(s.agents[b].pc)
  {
    if s'.pending != s.pending {
      var pc := s.agents[a].pc;
      assert pc.ReapUnlink? || pc.ReapRmdir?;
      assert Stopped(s.agents[pc.b].pc);
    }
  }

  lemma StepSparesTheLiving(c: Config, s: State, a: Agent, s': State, b: Agent)
    requires Inv(c, s) && StepBy(c, s, a, s') && b in s.pending && a != b
    ensures b in s.agents
    ensures || (b in s'.pending && s'.pending[b] == s.pending[b])
            || (Stopped(s.agents[b].pc) && s'.lock == s.lock)
  {
    assert PendingOk(s, b) && PcOk(c, s, a);
    if ReapStep(c, s, a, s') { ReapTouchesOnlyStopped(c, s, a, s', b); }
    else { OnlyReapingTouchesOthers(c, s, a, s', b); }
  }

  /**
  No agent touches the pending directory of another one, unless that one has stopped; in particular
  never after its directory was renamed into the lock path, which such a step leaves alone.
   */
  lemma ReaperSparesTheLiving(c: Config, run: seq<State>, i: nat, a: Agent, b: Agent)
    requires IsRun(c, run) && Init(run[0]) && 0 < i < |run| && b in run[i - 1].pending
    requires StepBy(c, run[i - 1], a, run[i]) && a != b
    ensures b in run[i - 1].agents && !run[i - 1].agents[b].installed
    ensures || (b in run[i].pending && run[i].pending[b] == run[i - 1].pending[b])
            || (Stopped(run[i - 1].agents[b].pc) && run[i].lock == run[i - 1].lock)
  {
    RunKeepsInv(c, run, i - 1);
    assert PendingOk(run[i - 1], b);
    StepSparesTheLiving(c, run[i - 1], a, run[i], b);
  }
}
