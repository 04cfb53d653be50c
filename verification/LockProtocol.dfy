/**
The cross-process lock that guards rotation and appending of the telemetry file.

Every call of the lock function is an `Agent` with its own random names. The model takes one step
per file operation, lets any operation fail without effect, and lets an agent crash at any point.
Agents are created without bound; several agents may share a process id.
 */
module LockProtocol {
  import opened Wrappers

  type Agent = nat

  /** Entry names that ever appear inside the lock directory or a pending directory. */
  datatype Marker = Owner(a: Agent) | Release(a: Agent) | Stale(a: Agent, n: nat)

  /** A directory: its entries with their file times, and its own modification time. */
  datatype Dir = Dir(entries: map<Marker, nat>, mtime: nat)

  datatype LockPath = Absent | Present(dir: Dir)

  /** `replacesEmpty` tells whether renaming a directory onto an empty one succeeds (POSIX) or not (Windows). */
  datatype Config = Config(staleMs: nat, timeoutMs: nat, replacesEmpty: bool) {
    predicate Valid() { staleMs >= 1 && timeoutMs >= 10 }
  }

  /** The next operation an agent performs, with the local variables it still needs. */
  datatype Pc =
    | ReapList
    | ReapStat(b: Agent)
    | ReapRead(b: Agent, latest: nat)
    | ReapStatMarker(b: Agent, m: Marker, latest: nat)
    | ReapProbe(b: Agent, latest: nat)
    | ReapUnlink(b: Agent)
    | ReapRmdir(b: Agent)
    | MakePending
    | WriteMarker
    | ProbeLock
    | Install
    | CleanUnlink(retry: bool)
    | CleanRmdir(retry: bool)
    | ListLock
    | StatLock(seen: set<Marker>, dirTodo: bool, todo: set<Marker>, latest: nat)
    | ClaimOwner(b: Agent)
    | ClaimUnlink(n: nat)
    | SweepUnlink(todo: set<Marker>)
    | ReclaimRmdir
    | Backoff
    | Critical
    | DropOwner
    | DropUnlink
    | DropRmdir
    | Done
    | Crashed

  /**
  `markedAt` is when the agent last created its owner marker. The last three fields record history:
  the marker reached the lock path, the agent renamed it away itself, another agent claimed it.
   */
  datatype AgentState = AgentState(
    pid: nat, pc: Pc, deadline: nat, claims: nat, markedAt: nat,
    installed: bool, released: bool, stolenAt: Option<nat>)

  datatype State = State(clock: nat, lock: LockPath, pending: map<Agent, Dir>, agents: map<Agent, AgentState>)

  // ----- Steps -----

  function Goto(s: State, a: Agent, pc: Pc): (s': State)
    requires a in s.agents
  {
    s.(agents := s.agents[a := s.agents[a].(pc := pc)])
  }

  predicate InSection(pc: Pc) { pc.Critical? || pc.DropOwner? }

  predicate Stopped(pc: Pc) { pc.Done? || pc.Crashed? }

  /** What "no such process" may claim: every agent of that process has stopped. */
  predicate DeadPid(s: State, pid: nat) {
    forall b | b in s.agents && s.agents[b].pid == pid :: Stopped(s.agents[b].pc)
  }

  function Max(x: nat, y: nat): nat { if x < y then y else x }

  function Without(d: Dir, m: Marker, now: nat): Dir {
    if m in d.entries then Dir(d.entries - {m}, now) else d
  }

  /** Renames entry `m` to `target`; the file keeps its own time, the directory is touched. */
  function Renamed(d: Dir, m: Marker, target: Marker, now: nat): Dir
    requires m in d.entries
  {
    Dir((d.entries - {m})[target := d.entries[m]], now)
  }

  predicate Holds(lock: LockPath, m: Marker) { lock.Present? && m in lock.dir.entries }

  predicate CanInstall(c: Config, lock: LockPath) {
    lock.Absent? || (c.replacesEmpty && lock.dir.entries == map[])
  }

  function UnlinkLock(lock: LockPath, m: Marker, now: nat): LockPath {
    if lock.Present? then Present(Without(lock.dir, m, now)) else lock
  }

  function RmdirLock(lock: LockPath): LockPath {
    if lock.Present? && lock.dir.entries == map[] then Absent else lock
  }

  function UnlinkPending(s: State, b: Agent): map<Agent, Dir> {
    if b in s.pending && s.pending[b].entries != map[] then s.pending[b := Dir(map[], s.clock)] else s.pending
  }

  function RmdirPending(s: State, b: Agent): map<Agent, Dir> {
    if b in s.pending && s.pending[b].entries == map[] then s.pending - {b} else s.pending
  }

  ghost predicate Begin(c: Config, s: State, a: Agent, s': State) {
    && a !in s.agents
    && exists pid: nat ::
         s' == s.(agents := s.agents[a := AgentState(pid, ReapList, 0, 0, 0, false, false, None)])
  }

  predicate Tick(s: State, s': State) {
    s'.clock > s.clock && s' == s.(clock := s'.clock)
  }

  predicate Crash(s: State, a: Agent, s': State)
    requires a in s.agents
  {
    !Stopped(s.agents[a].pc) && s' == Goto(s, a, Crashed)
  }

  // Clearing abandoned pending directories before acquiring.

  predicate ReapStep(c: Config, s: State, a: Agent, s': State)
    requires a in s.agents
  {
    match s.agents[a].pc
    case ReapList =>
      || s' == s.(agents := s.agents[a := s.agents[a].(pc := MakePending, deadline := s.clock + c.timeoutMs)])
      || exists b | b in s.pending :: s' == Goto(s, a, ReapStat(b))
    case ReapStat(b) =>
      || s' == Goto(s, a, ReapList)
      || (b in s.pending && s' == Goto(s, a, ReapRead(b, s.pending[b].mtime)))
    case ReapRead(b, latest) =>
      || s' == Goto(s, a, ReapList)
      || (b in s.pending && s.pending[b].entries == map[] && s' == Goto(s, a, ReapProbe(b, latest)))
      || (b in s.pending && b in s.agents
          && exists m | m in s.pending[b].entries ::
               && s.pending[b].entries.Keys == {m}
               && m.Owner? && m.a in s.agents && s.agents[m.a].pid == s.agents[b].pid
               && s' == Goto(s, a, ReapStatMarker(b, m, latest)))
    case ReapStatMarker(b, m, latest) =>
      || s' == Goto(s, a, ReapList)
      || (b in s.pending && m in s.pending[b].entries
          && s' == Goto(s, a, ReapProbe(b, Max(latest, s.pending[b].entries[m]))))
    case ReapProbe(b, latest) =>
      || s' == Goto(s, a, ReapList)
      || (b in s.agents && s.clock >= latest + c.staleMs && DeadPid(s, s.agents[b].pid)
          && s' == Goto(s, a, ReapUnlink(b)))
    case ReapUnlink(b) =>
      || s' == Goto(s, a, ReapList)
      || s' == Goto(s.(pending := UnlinkPending(s, b)), a, ReapRmdir(b))
    case ReapRmdir(b) =>
      || s' == Goto(s, a, ReapList)
      || s' == Goto(s.(pending := RmdirPending(s, b)), a, ReapList)
    case _ => false
  }

  // Building the private directory and renaming it into place.

  predicate AcquireStep(c: Config, s: State, a: Agent, s': State)
    requires a in s.agents
  {
    var ag := s.agents[a];
    match ag.pc
    case MakePending =>
      || s' == Goto(s, a, CleanUnlink(true)) || s' == Goto(s, a, CleanUnlink(false))
      || (a !in s.pending && s' == Goto(s.(pending := s.pending[a := Dir(map[], s.clock)]), a, WriteMarker))
    case WriteMarker =>
      || s' == Goto(s, a, CleanUnlink(true)) || s' == Goto(s, a, CleanUnlink(false))
      || (a in s.pending && Owner(a) !in s.pending[a].entries
          && s' == s.(pending := s.pending[a := Dir(s.pending[a].entries[Owner(a) := s.clock], s.clock)],
                      agents := s.agents[a := ag.(pc := ProbeLock, markedAt := s.clock)]))
    case ProbeLock =>
      || s' == Goto(s, a, CleanUnlink(true)) || s' == Goto(s, a, CleanUnlink(false))
      || (s.lock.Absent? && s' == Goto(s, a, Install))
    case Install =>
      || s' == Goto(s, a, CleanUnlink(true)) || s' == Goto(s, a, CleanUnlink(false))
      || (a in s.pending && CanInstall(c, s.lock)
          && s' == s.(lock := Present(s.pending[a]), pending := s.pending - {a},
                      agents := s.agents[a := ag.(pc := Critical, installed := true)]))
    case CleanUnlink(retry) =>
      || s' == Goto(s, a, CleanRmdir(retry))
      || s' == Goto(s.(pending := UnlinkPending(s, a)), a, CleanRmdir(retry))
    case CleanRmdir(retry) =>
      var next := if retry then ListLock else Done;
      || s' == Goto(s, a, next)
      || s' == Goto(s.(pending := RmdirPending(s, a)), a, next)
    case Backoff =>
      s' == Goto(s, a, if s.clock >= ag.deadline then Done else MakePending)
    case _ => false
  }

  /** What the reclaimer does once it has read every time: leave, claim the one owner, or sweep leftovers. */
  predicate Judge(c: Config, s: State, a: Agent, seen: set<Marker>, latest: nat, s': State)
    requires a in s.agents
  {
    if s.clock < latest + c.staleMs then s' == Goto(s, a, Backoff)
    else if exists m | m in seen :: m.Owner? then
      exists m | m in seen ::
        && m.Owner?
        && s' == Goto(s, a, if forall n | n in seen :: n.Owner? ==> n == m then ClaimOwner(m.a) else Backoff)
    else s' == Goto(s, a, SweepUnlink(seen))
  }

  /** Renames the marker that was observed, and only that one. */
  function ClaimResult(s: State, a: Agent, b: Agent): State
    requires a in s.agents && Holds(s.lock, Owner(b))
  {
    var n := s.agents[a].claims;
    var d := Renamed(s.lock.dir, Owner(b), Stale(a, n), s.clock);
    var agents := if b in s.agents then s.agents[b := s.agents[b].(stolenAt := Some(s.clock))] else s.agents;
    s.(lock := Present(d), agents := agents[a := agents[a].(pc := ClaimUnlink(n), claims := n + 1)])
  }

  predicate ReclaimStep(c: Config, s: State, a: Agent, s': State)
    requires a in s.agents
  {
    match s.agents[a].pc
    case ListLock =>
      || s' == Goto(s, a, Backoff)
      || (s.lock.Present?
          && s' == Goto(s, a, StatLock(s.lock.dir.entries.Keys, true, s.lock.dir.entries.Keys, 0)))
    case StatLock(seen, dirTodo, todo, latest) =>
      || s' == Goto(s, a, Backoff)
      || (dirTodo && s.lock.Present?
          && s' == Goto(s, a, StatLock(seen, false, todo, Max(latest, s.lock.dir.mtime))))
      || (exists m | m in todo ::
            && Holds(s.lock, m)
            && s' == Goto(s, a, StatLock(seen, dirTodo, todo - {m}, Max(latest, s.lock.dir.entries[m]))))
      || (!dirTodo && todo == {} && Judge(c, s, a, seen, latest, s'))
    case ClaimOwner(b) =>
      || s' == Goto(s, a, Backoff)
      || (Holds(s.lock, Owner(b)) && s' == ClaimResult(s, a, b))
    case ClaimUnlink(n) =>
      || s' == Goto(s, a, ReclaimRmdir)
      || s' == Goto(s.(lock := UnlinkLock(s.lock, Stale(a, n), s.clock)), a, ReclaimRmdir)
    case SweepUnlink(todo) =>
      if todo == {} then s' == Goto(s, a, ReclaimRmdir)
      else exists m | m in todo ::
        || s' == Goto(s, a, SweepUnlink(todo - {m}))
        || s' == Goto(s.(lock := UnlinkLock(s.lock, m, s.clock)), a, SweepUnlink(todo - {m}))
    case ReclaimRmdir =>
      || s' == Goto(s, a, Backoff)
      || s' == Goto(s.(lock := RmdirLock(s.lock)), a, Backoff)
    case _ => false
  }

  predicate ReleaseStep(c: Config, s: State, a: Agent, s': State)
    requires a in s.agents
  {
    match s.agents[a].pc
    case Critical => s' == Goto(s, a, DropOwner)
    case DropOwner =>
      || s' == Goto(s, a, Done)
      || (Holds(s.lock, Owner(a))
          && s' == s.(lock := Present(Renamed(s.lock.dir, Owner(a), Release(a), s.clock)),
                      agents := s.agents[a := s.agents[a].(pc := DropUnlink, released := true)]))
    case DropUnlink =>
      || s' == Goto(s, a, DropRmdir)
      || s' == Goto(s.(lock := UnlinkLock(s.lock, Release(a), s.clock)), a, DropRmdir)
    case DropRmdir =>
      || s' == Goto(s, a, Done)
      || s' == Goto(s.(lock := RmdirLock(s.lock)), a, Done)
    case _ => false
  }

  /** One operation, or the crash, of agent `a`. */
  predicate StepBy(c: Config, s: State, a: Agent, s': State) {
    && a in s.agents
    && (|| Crash(s, a, s')
        || ReapStep(c, s, a, s')
        || AcquireStep(c, s, a, s')
        || ReclaimStep(c, s, a, s')
        || ReleaseStep(c, s, a, s'))
  }

  ghost predicate Next(c: Config, s: State, s': State) {
    || Tick(s, s')
    || (exists a :: Begin(c, s, a, s'))
    || (exists a :: StepBy(c, s, a, s'))
  }

  predicate Init(s: State) {
    s.lock.Absent? && s.pending == map[] && s.agents == map[]
  }

  ghost predicate StepAt(c: Config, run: seq<State>, i: nat)
    requires 0 < i < |run|
  {
    Next(c, run[i - 1], run[i])
  }

  ghost predicate IsRun(c: Config, run: seq<State>) {
    && |run| > 0
    && forall i: nat | 0 < i < |run| :: StepAt(c, run, i)
  }
}
