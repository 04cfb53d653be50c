/**
What the steps of the lock protocol achieve, not only what they keep: a release frees the lock, so that
the next call enters without waiting; an abandoned pending directory is removed by a pass over it; and
crashes, failures and the passing of time are possible wherever the protocol is meant to stand them.
 */
module LockRelease {
  import opened Wrappers
  import opened LockProtocol
  import opened LockSafety
  import opened LockRecovery

  // ----- Releasing -----

  /** The lock directory is as the next operation of the release expects it. */
  predicate Releasing(s: State, a: Agent) {
    && a in s.agents && s.lock.Present?
    && match s.agents[a].pc
       case Critical => s.lock.dir.entries.Keys == {Owner(a)}
       case DropOwner => s.lock.dir.entries.Keys == {Owner(a)}
       case DropUnlink => s.lock.dir.entries.Keys == {Release(a)}
       case DropRmdir => s.lock.dir.entries.Keys == {}
       case _ => false
  }

  function ReleaseRank(pc: Pc): nat {
    match pc
    case Critical => 4
    case DropOwner => 3
    case DropUnlink => 2
    case DropRmdir => 1
    case _ => 0
  }

  predicate Freed(s: State, a: Agent) { s.lock.Absent? && a in s.agents && s.agents[a].pc == Done }

  lemma ReleaseProgress(c: Config, s: State, a: Agent, s': State)
    requires Releasing(s, a) && OkStep(c, s, a, s')
    ensures s'.clock == s.clock
    ensures Freed(s', a)
            || (Releasing(s', a) && ReleaseRank(s'.agents[a].pc) < ReleaseRank(s.agents[a].pc))
  {
    var d := s.lock.dir;
    match s.agents[a].pc
    case DropOwner =>
      assert Holds(s.lock, Owner(a));
      assert s'.lock.dir.entries.Keys == {Release(a)};
    case DropUnlink => assert Without(d, Release(a), s.clock).entries.Keys == {};
    case DropRmdir => assert d.entries == map[];
    case _ =>
  }

  lemma {:induction false} ReleaseUpTo(c: Config, a: Agent, run: seq<State>, n: nat) returns (freed: bool, i: nat)
    requires OkRun(c, a, run) && Releasing(run[0], a) && n < |run|
    ensures freed ==> i <= n && Freed(run[i], a) && Operations(run, i) <= ReleaseRank(run[0].agents[a].pc)
    ensures !freed ==> Releasing(run[n], a)
                       && ReleaseRank(run[n].agents[a].pc) + Operations(run, n) <= ReleaseRank(run[0].agents[a].pc)
  {
    freed, i := false, 0;
    if n > 0 {
      freed, i := ReleaseUpTo(c, a, run, n - 1);
      if !freed {
        assert OkStepAt(c, a, run, n);
        if !Tick(run[n - 1], run[n]) {
          ReleaseProgress(c, run[n - 1], a, run[n]);
          freed, i := Freed(run[n], a), n;
        }
      }
    }
  }

  /**
  A release frees the lock: from every reachable state in which `a` has done its work and holds the lock,
  every failure-free run of `a` ends with the lock path absent within four operations.
   */
  lemma ReleaseFreesLock(c: Config, past: seq<State>, a: Agent, run: seq<State>, n: nat) returns (i: nat)
    requires IsRun(c, past) && Init(past[0]) && OkRun(c, a, run) && run[0] == past[|past| - 1]
    requires a in run[0].agents && run[0].agents[a].pc == Critical && Holds(run[0].lock, Owner(a))
    requires n < |run| && Operations(run, n) >= 4
    ensures i <= n && Operations(run, i) <= 4 && run[i].lock.Absent?
    ensures a in run[i].agents && run[i].agents[a].pc == Done
  {
    RunKeepsInv(c, past, |past| - 1);
    OnlyElement(run[0].lock.dir.entries.Keys, Owner(a));
    var freed;
    freed, i := ReleaseUpTo(c, a, run, n);
  }

  /**
  After that nobody has to wait: while the lock path is absent a call that begins enters, whatever its
  reaping pass does, within four further operations of every failure-free run of it alone.
   */
  lemma EntersWithoutWaiting(
      c: Config, past: seq<State>, a: Agent, reap: seq<State>, more: seq<State>, n: nat) returns (k: nat)
    requires c.Valid() && IsRun(c, past) && Init(past[0]) && past[|past| - 1].lock.Absent?
    requires ReapRun(c, a, reap) && Begin(c, past[|past| - 1], a, reap[0])
    requires a in reap[|reap| - 1].agents && !InReap(reap[|reap| - 1].agents[a].pc)
    requires OkRun(c, a, more) && InTime(more, a) && more[0] == reap[|reap| - 1] && n < |more|
    ensures Operations(more, n) >= 4 ==> k <= n && Entered(more[k], a) && Operations(more, k) <= 4
  {
    var s := past[|past| - 1];
    RunKeepsInv(c, past, |past| - 1);
    forall b | b in s.pending ensures b != a { assert PendingOk(s, b); }
    assert Newcomer(c, reap[0], a);
    ReapRunKeepsLock(c, a, reap, |reap| - 1);
    var some;
    k, some := NewcomerEnters(c, a, reap, more, n);
  }

  lemma {:induction false} ReapRunKeepsLock(c: Config, a: Agent, run: seq<State>, i: nat)
    requires ReapRun(c, a, run) && i < |run|
    ensures run[i].lock == run[0].lock
  {
    if i > 0 {
      ReapRunKeepsLock(c, a, run, i - 1);
      assert ReapStepAt(c, a, run, i);
      ReapKeepsLock(c, run[i - 1], a, run[i]);
    }
  }

  lemma ReapKeepsLock(c: Config, s: State, a: Agent, s': State)
    requires a in s.agents && ReapStep(c, s, a, s')
    ensures s'.lock == s.lock
  {
  }

  // ----- Reaping -----

  /** The next operation of the pass over `b` has the outcome that the disk and the process table dictate. */
  predicate OkReap(c: Config, s: State, a: Agent, s': State)
    requires a in s.agents
  {
    match s.agents[a].pc
    case ReapStat(b) => s' == Goto(s, a, if b in s.pending then ReapRead(b, s.pending[b].mtime) else ReapList)
    case ReapRead(b, latest) =>
      if b !in s.pending || b !in s.agents then s' == Goto(s, a, ReapList)
      else if s.pending[b].entries == map[] then s' == Goto(s, a, ReapProbe(b, latest))
      else if s.pending[b].entries.Keys == {Owner(b)} then s' == Goto(s, a, ReapStatMarker(b, Owner(b), latest))
      else s' == Goto(s, a, ReapList)
    case ReapStatMarker(b, m, latest) =>
      s' == Goto(s, a, if b in s.pending && m in s.pending[b].entries
                       then ReapProbe(b, Max(latest, s.pending[b].entries[m])) else ReapList)
    case ReapProbe(b, latest) =>
      s' == Goto(s, a, if b in s.agents && s.clock - latest >= c.staleMs && DeadPid(s, s.agents[b].pid)
                       then ReapUnlink(b) else ReapList)
    case ReapUnlink(b) => s' == Goto(s.(pending := UnlinkPending(s, b)), a, ReapRmdir(b))
    case ReapRmdir(b) => s' == Goto(s.(pending := RmdirPending(s, b)), a, ReapList)
    case _ => false
  }

  lemma OkReapIsStep(c: Config, s: State, a: Agent, s': State)
    requires a in s.agents && OkReap(c, s, a, s')
    ensures StepBy(c, s, a, s')
  {
    var pc := s.agents[a].pc;
    if pc.ReapRead? && s'.agents[a].pc.ReapStatMarker? { assert Owner(pc.b) in s.pending[pc.b].entries; }
    assert ReapStep(c, s, a, s');
  }

  /** The directory of `b` is old, holds at most its owner marker, and its process is gone. */
  predicate Leftover(c: Config, s: State, b: Agent) {
    && b in s.pending && b in s.agents && DeadPid(s, s.agents[b].pid)
    && s.pending[b].mtime + c.staleMs <= s.clock
    && s.pending[b].entries.Keys <= {Owner(b)}
    && forall m | m in s.pending[b].entries :: s.pending[b].entries[m] + c.staleMs <= s.clock
  }

  /** The pass over `b` is on its way to removing it. */
  predicate Reaping(c: Config, s: State, a: Agent, b: Agent) {
    && a in s.agents && !Stopped(s.agents[a].pc)
    && match s.agents[a].pc
       case ReapStat(x) => x == b && Leftover(c, s, b)
       case ReapRead(x, latest) => x == b && Leftover(c, s, b) && latest + c.staleMs <= s.clock
       case ReapStatMarker(x, m, latest) =>
         x == b && Leftover(c, s, b) && m in s.pending[b].entries && latest + c.staleMs <= s.clock
       case ReapProbe(x, latest) => x == b && Leftover(c, s, b) && latest + c.staleMs <= s.clock
       case ReapUnlink(x) => x == b && Leftover(c, s, b)
       case ReapRmdir(x) => x == b && b in s.pending && s.pending[b].entries == map[]
       case _ => false
  }

  function ReapRank(pc: Pc): nat {
    match pc
    case ReapStat(_) => 6
    case ReapRead(_, _) => 5
    case ReapStatMarker(_, _, _) => 4
    case ReapProbe(_, _) => 3
    case ReapUnlink(_) => 2
    case ReapRmdir(_) => 1
    case _ => 0
  }

  lemma DeadStaysDead(s: State, a: Agent, pc: Pc, pid: nat)
    requires a in s.agents && !Stopped(s.agents[a].pc) && DeadPid(s, pid)
    ensures DeadPid(Goto(s, a, pc), pid)
  {
    assert s.agents[a].pid != pid;
  }

  /** One operation removes the directory, or brings that nearer; other directories stay as they are. */
  lemma ReapProgress(c: Config, s: State, a: Agent, b: Agent, s': State)
    requires Reaping(c, s, a, b) && OkReap(c, s, a, s')
    ensures forall x | x != b :: x in s'.pending <==> x in s.pending
    ensures forall x | x != b && x in s.pending :: s'.pending[x] == s.pending[x]
    ensures b !in s'.pending || (Reaping(c, s', a, b) && ReapRank(s'.agents[a].pc) < ReapRank(s.agents[a].pc))
  {
    if b in s.agents && DeadPid(s, s.agents[b].pid) { DeadStaysDead(s, a, s'.agents[a].pc, s.agents[b].pid); }
    var pc := s.agents[a].pc;
    if pc.ReapRead? && s.pending[b].entries != map[] {
      assert s.pending[b].entries.Keys == {Owner(b)};
    }
  }

  predicate OkReapAt(c: Config, a: Agent, run: seq<State>, i: nat)
    requires 0 < i < |run|
  {
    a in run[i - 1].agents && OkReap(c, run[i - 1], a, run[i])
  }

  /** A leftover directory is gone after at most six failure-free operations of the pass over it. */
  lemma {:induction false} ReapRemovesLeftover(c: Config, a: Agent, b: Agent, run: seq<State>, n: nat) returns (i: nat)
    requires |run| > n && Reaping(c, run[0], a, b) && ReapRank(run[0].agents[a].pc) <= n
    requires forall j: nat | 0 < j < |run| :: OkReapAt(c, a, run, j)
    ensures i <= n && b !in run[i].pending
  {
    assert OkReapAt(c, a, run, 1);
    ReapProgress(c, run[0], a, b, run[1]);
    if b !in run[1].pending {
      i := 1;
    } else {
      forall j: nat | 0 < j < |run[1..]| ensures OkReapAt(c, a, run[1..], j) { assert OkReapAt(c, a, run, j + 1); }
      i := ReapRemovesLeftover(c, a, b, run[1..], n - 1);
      i := i + 1;
    }
  }

  /** Whatever else happens, a directory is condemned only when its times are old and its process is gone. */
  lemma OnlyLeftoversAreCondemned(c: Config, s: State, a: Agent, s': State, b: Agent, latest: nat)
    requires a in s.agents && s.agents[a].pc == ReapProbe(b, latest) && StepBy(c, s, a, s')
    ensures a in s'.agents && (s'.agents[a].pc == ReapUnlink(b) ==>
      s.clock - latest >= c.staleMs && b in s.agents
      && forall x | x in s.agents && s.agents[x].pid == s.agents[b].pid :: Stopped(s.agents[x].pc))
  {
  }

  // ----- What can happen -----

  /** Time passes, calls begin under any process id, and a call that has not stopped can crash anywhere. */
  lemma AnythingCanHappen(c: Config, s: State, ms: nat, a: Agent, pid: nat)
    ensures ms > 0 ==> Next(c, s, s.(clock := s.clock + ms))
    ensures a !in s.agents ==>
      exists s' :: Next(c, s, s') && a in s'.agents && s'.agents[a].pid == pid && s'.agents[a].pc == ReapList
    ensures a in s.agents && !Stopped(s.agents[a].pc) ==> Next(c, s, Goto(s, a, Crashed))
  {
    if a !in s.agents {
      var s' := s.(agents := s.agents[a := AgentState(pid, ReapList, 0, 0, 0, false, false, None)]);
      assert Begin(c, s, a, s');
    } else if !Stopped(s.agents[a].pc) {
      assert StepBy(c, s, a, Goto(s, a, Crashed));
    }
  }

  /** The reaping pass can look at any pending directory, and can end at any time, which starts the deadline. */
  lemma PassGoesOn(c: Config, s: State, a: Agent, s': State)
    requires a in s.agents && s.agents[a].pc == ReapList
    ensures StepBy(c, s, a, s') ==> a in s'.agents && s'.lock == s.lock && s'.pending == s.pending
    ensures StepBy(c, s, a, s') && s'.agents[a].pc == MakePending ==>
      s'.agents[a].deadline == s.clock + c.timeoutMs
    ensures exists end :: StepBy(c, s, a, end) && end.agents[a].pc == MakePending
    ensures forall b | b in s.pending :: StepBy(c, s, a, Goto(s, a, ReapStat(b)))
  {
    var end := s.(agents := s.agents[a := s.agents[a].(pc := MakePending, deadline := s.clock + c.timeoutMs)]);
    assert ReapStep(c, s, a, end);
    assert StepBy(c, s, a, end);
    forall b | b in s.pending ensures StepBy(c, s, a, Goto(s, a, ReapStat(b))) {
      assert ReapStep(c, s, a, Goto(s, a, ReapStat(b)));
    }
  }

  /** The program counters at which an agent touches the disk. */
  predicate TouchesDisk(pc: Pc) {
    !Stopped(pc) && !pc.Backoff? && !pc.Critical? && !(pc.SweepUnlink? && pc.todo == {})
  }

  /** Every operation on the disk can fail without effect: nothing changes but where the agent stands. */
  lemma AnyOperationCanFail(c: Config, s: State, a: Agent) returns (pc: Pc)
    requires a in s.agents && TouchesDisk(s.agents[a].pc) && !s.agents[a].pc.ReapList?
    ensures StepBy(c, s, a, Goto(s, a, pc)) && !pc.Crashed?
  {
    var at := s.agents[a].pc;
    match at
    case CleanUnlink(retry) => pc := CleanRmdir(retry);
    case CleanRmdir(retry) => pc := if retry then ListLock else Done;
    case ClaimUnlink(_) => pc := ReclaimRmdir;
    case SweepUnlink(todo) =>
      var m :| m in todo;
      pc := SweepUnlink(todo - {m});
    case DropOwner => pc := Done;
    case DropUnlink => pc := DropRmdir;
    case DropRmdir => pc := Done;
    case _ =>
      if at.MakePending? || at.WriteMarker? || at.ProbeLock? || at.Install? { pc := CleanUnlink(false); }
      else if at.ListLock? || at.StatLock? || at.ClaimOwner? || at.ReclaimRmdir? { pc := Backoff; }
      else { pc := ReapList; }
  }

  /** Where the platform lets a rename replace an empty directory, an empty lock directory is no obstacle. */
  lemma EmptyLockCanBeReplaced(c: Config, s: State, a: Agent)
    requires a in s.agents && s.agents[a].pc == Install && a in s.pending && c.replacesEmpty
    requires s.lock.Present? && s.lock.dir.entries == map[]
    ensures exists s' :: StepBy(c, s, a, s') && s'.lock == Present(s.pending[a]) && s'.agents[a].pc == Critical
  {
    var s' := s.(lock := Present(s.pending[a]), pending := s.pending - {a},
                 agents := s.agents[a := s.agents[a].(pc := Critical, installed := true)]);
    assert AcquireStep(c, s, a, s');
  }
}
