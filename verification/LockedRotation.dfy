/**
Rotation and appending under the lock: the work in the section is done one file operation at a time,
interleaved with every step of every other agent. As long as no marker is claimed as stale, the files
hold the last lines written, in the order in which their calls entered the section.
 */
module LockedRotation {
  import opened Wrappers
  import opened LockProtocol
  import opened LockSafety
  import opened Utf8
  import R = Rotation

  /** What an agent in the section does next. */
  datatype Work = Idle | Dropping | Rotating(g: nat) | Appending | Finished(wrote: bool)

  /** The line each call records, and the limits of the sink. */
  datatype Sink = Sink(config: Config, line: Agent -> string, maxBytes: nat, maxFiles: nat) {
    ghost predicate Valid() { maxFiles >= 1 && forall a: Agent :: line(a) != "" }
  }

  /** `entered` are the agents that entered the section, in order. */
  datatype Sys = Sys(state: State, files: R.Files, work: map<Agent, Work>, entered: seq<Agent>)

  // ----- Steps -----

  /** Renames generation g - 1 to g; a missing source leaves everything as it is. */
  function Renamed(f: R.Files, g: nat): R.Files
    requires g >= 1
  {
    if g - 1 in f then (f - {g - 1})[g := f[g - 1]] else f
  }

  /** One file operation on behalf of `a`, which leads from `w` to `w'`. */
  predicate Operates(k: Sink, a: Agent, files: R.Files, w: Work, files': R.Files, w': Work) {
    match w
    case Idle =>
      && files' == files
      && w' == (if R.NeedsRotation(files, Bytes(k.line(a)), k.maxBytes) then Dropping else Appending)
    case Dropping => files' == files - {k.maxFiles} && w' == Rotating(k.maxFiles)
    case Rotating(g) => g >= 1 && files' == Renamed(files, g) && w' == (if g == 1 then Appending else Rotating(g - 1))
    case Appending =>
      || (files' == files[0 := R.At(files, 0) + [k.line(a)]] && w' == Finished(true))
      || (files' == files && w' == Finished(false))
    case Finished(_) => false
  }

  /** The agent in the section works on the files. */
  predicate WorkStep(k: Sink, s: Sys, a: Agent, s': Sys) {
    && a in s.work && a in s'.work && a in s.state.agents && s.state.agents[a].pc == Critical
    && s'.state == s.state && s'.entered == s.entered && s'.work == s.work[a := s'.work[a]]
    && Operates(k, a, s.files, s.work[a], s'.files, s'.work[a])
  }

  predicate Enters(s: State, a: Agent, s': State) {
    a in s.agents && a in s'.agents && !s.agents[a].installed && s'.agents[a].installed
  }

  predicate Leaves(s: State, a: Agent, s': State) {
    a in s.agents && a in s'.agents && s.agents[a].pc == Critical && s'.agents[a].pc == DropOwner
  }

  /** A step of the lock protocol; the section is left only when the work in it is over. */
  predicate AgentStep(k: Sink, s: Sys, a: Agent, s': Sys) {
    && StepBy(k.config, s.state, a, s'.state) && s'.files == s.files
    && (Leaves(s.state, a, s'.state) ==> a in s.work && s.work[a].Finished?)
    && (if Enters(s.state, a, s'.state) then s'.work == s.work[a := Idle] && s'.entered == s.entered + [a]
        else s'.work == s.work && s'.entered == s.entered)
  }

  /** Time passes, or a call begins. */
  ghost predicate OtherStep(k: Sink, s: Sys, s': Sys) {
    && (Tick(s.state, s'.state) || exists a :: Begin(k.config, s.state, a, s'.state))
    && s'.files == s.files && s'.work == s.work && s'.entered == s.entered
  }

  ghost predicate SysNext(k: Sink, s: Sys, s': Sys) {
    OtherStep(k, s, s') || (exists a :: AgentStep(k, s, a, s')) || (exists a :: WorkStep(k, s, a, s'))
  }

  predicate SysInit(s: Sys) { Init(s.state) && s.files == map[] && s.work == map[] && s.entered == [] }

  ghost predicate SysStepAt(k: Sink, run: seq<Sys>, i: nat)
    requires 0 < i < |run|
  {
    SysNext(k, run[i - 1], run[i])
  }

  ghost predicate IsSysRun(k: Sink, run: seq<Sys>) {
    |run| > 0 && SysInit(run[0]) && forall i: nat | 0 < i < |run| :: SysStepAt(k, run, i)
  }

  /** No marker has been claimed by another agent. */
  predicate NoClaims(s: State) { forall b | b in s.agents :: s.agents[b].stolenAt.None? }

  // ----- The invariant -----

  /** The agents whose line is in the log, in the order in which they entered. */
  function Wrote(entered: seq<Agent>, work: map<Agent, Work>): seq<Agent> {
    if entered == [] then []
    else
      var a := entered[|entered| - 1];
      Wrote(entered[..|entered| - 1], work) + (if a in work && work[a] == Finished(true) then [a] else [])
  }

  function LinesOf(k: Sink, agents: seq<Agent>): seq<string> {
    if agents == [] then [] else LinesOf(k, agents[..|agents| - 1]) + [k.line(agents[|agents| - 1])]
  }

  predicate IsSuffix(h: seq<string>, lines: seq<string>) { |h| <= |lines| && h == lines[|lines| - |h|..] }

  predicate Unfinished(work: map<Agent, Work>, a: Agent) { a in work && !work[a].Finished? }

  predicate AtWork(st: State, a: Agent) {
    a in st.agents && !st.agents[a].released && (st.agents[a].pc == Critical || st.agents[a].pc == Crashed)
  }

  /** Unfinished work belongs to an agent that holds the lock and is at it, or crashed in it. */
  ghost predicate WorkOk(st: State, work: map<Agent, Work>) {
    && (forall a :: a in work <==> Installed(st, a))
    && (forall a | Unfinished(work, a) :: AtWork(st, a))
  }

  /** Only the last agent to enter can have unfinished work. */
  ghost predicate OrderOk(entered: seq<Agent>, work: map<Agent, Work>) {
    && Distinct(entered)
    && (forall a :: a in entered <==> a in work)
    && (forall a | Unfinished(work, a) :: entered != [] && a == entered[|entered| - 1])
  }

  /** The next operation finds the files as the rotation needs them. */
  predicate StageOk(k: Sink, files: R.Files, a: Agent, w: Work) {
    match w
    case Rotating(g) => 1 <= g <= k.maxFiles && R.SlotAt(files, g) == R.Missing
    case Appending => !R.NeedsRotation(files, Bytes(k.line(a)), k.maxBytes)
    case _ => true
  }

  predicate StagesOk(k: Sink, files: R.Files, work: map<Agent, Work>) {
    forall a | a in work :: StageOk(k, files, a, work[a])
  }

  /** The files are within their limits and hold the last lines of those that wrote. */
  predicate LogOk(k: Sink, files: R.Files, wrote: seq<Agent>) {
    R.Bounded(files, k.maxBytes, k.maxFiles) && IsSuffix(R.History(files, k.maxFiles), LinesOf(k, wrote))
  }

  ghost predicate Sound(k: Sink, s: Sys) {
    && Inv(k.config, s.state) && WorkOk(s.state, s.work) && OrderOk(s.entered, s.work)
    && StagesOk(k, s.files, s.work) && LogOk(k, s.files, Wrote(s.entered, s.work))
  }

  // ----- Steps of the lock protocol -----

  /** The flags that matter here. */
  datatype Flags = Flags(pc: Pc, installed: bool, released: bool)

  function FlagsOf(ag: AgentState): Flags { Flags(ag.pc, ag.installed, ag.released) }

  /** What a step can do to the flags of the agent that takes it. */
  predicate OwnFlags(c: Config, lock: LockPath, x: Flags, y: Flags) {
    && (x.installed ==> y.installed)
    && (!x.installed && y.installed ==> CanInstall(c, lock) && y.pc == Critical && y.released == x.released)
    && (y.released != x.released ==> x.pc == DropOwner)
    && (x.pc == Critical ==> y.pc == DropOwner || y.pc == Crashed)
    && x.pc != Crashed
  }

  /** A step of `a` changes its own flags only, and only in these ways. */
  predicate FlagsMove(c: Config, s: State, a: Agent, s': State)
    requires a in s.agents
  {
    && s'.agents.Keys == s.agents.Keys
    && (forall b | b in s.agents && b != a :: FlagsOf(s'.agents[b]) == FlagsOf(s.agents[b]))
    && OwnFlags(c, s.lock, FlagsOf(s.agents[a]), FlagsOf(s'.agents[a]))
  }

  lemma InstallFlags(c: Config, s: State, a: Agent, s': State)
    requires a in s.agents && s.agents[a].pc.Install? && AcquireStep(c, s, a, s')
    ensures FlagsMove(c, s, a, s')
  {
    assert s'.agents == s.agents[a := s'.agents[a]];
  }

  lemma BuildFlags(c: Config, s: State, a: Agent, s': State)
    requires a in s.agents && !s.agents[a].pc.Install? && AcquireStep(c, s, a, s')
    ensures FlagsMove(c, s, a, s')
  {
    var x, y := s.agents[a], s'.agents[a];
    assert s'.agents == s.agents[a := y];
    assert y.installed == x.installed && y.released == x.released;
  }

  lemma ReleaseFlags(c: Config, s: State, a: Agent, s': State)
    requires a in s.agents && ReleaseStep(c, s, a, s')
    ensures FlagsMove(c, s, a, s')
  {
    assert s'.agents == s.agents[a := s'.agents[a]];
  }

  lemma CrashFlags(c: Config, s: State, a: Agent, s': State)
    requires a in s.agents && Crash(s, a, s')
    ensures FlagsMove(c, s, a, s')
  {
  }

  lemma ReapFlags(c: Config, s: State, a: Agent, s': State)
    requires a in s.agents && ReapStep(c, s, a, s')
    ensures FlagsMove(c, s, a, s')
  {
    var x, y := s.agents[a], s'.agents[a];
    assert s'.agents == s.agents[a := y];
    assert y.installed == x.installed && y.released == x.released;
  }

  lemma ClaimFlags(c: Config, s: State, a: Agent, b: Agent)
    requires a in s.agents && s.agents[a].pc == ClaimOwner(b) && Holds(s.lock, Owner(b))
    ensures FlagsMove(c, s, a, ClaimResult(s, a, b))
  {
  }

  lemma ReclaimFlags(c: Config, s: State, a: Agent, s': State)
    requires a in s.agents && ReclaimStep(c, s, a, s')
    ensures FlagsMove(c, s, a, s')
  {
    if s.agents[a].pc.ClaimOwner? && s' != Goto(s, a, Backoff) {
      ClaimFlags(c, s, a, s.agents[a].pc.b);
    } else {
      assert s'.agents == s.agents[a := s'.agents[a]];
    }
  }

  lemma StepFlags(c: Config, s: State, a: Agent, s': State)
    requires StepBy(c, s, a, s')
    ensures FlagsMove(c, s, a, s')
  {
    if AcquireStep(c, s, a, s') {
      if s.agents[a].pc.Install? { InstallFlags(c, s, a, s'); } else { BuildFlags(c, s, a, s'); }
    }
    else if ReleaseStep(c, s, a, s') { ReleaseFlags(c, s, a, s'); }
    else if ReclaimStep(c, s, a, s') { ReclaimFlags(c, s, a, s'); }
    else if Crash(s, a, s') { CrashFlags(c, s, a, s'); }
    else { ReapFlags(c, s, a, s'); }
  }

  /** Without claims nobody enters while another one's work is unfinished. */
  lemma EntryIsExclusive(k: Sink, s: Sys, b: Agent)
    requires Sound(k, s) && NoClaims(s.state) && CanInstall(k.config, s.state.lock) && b in s.work
    ensures s.work[b].Finished?
  {
    assert HistoryOk(k.config, s.state, b);
    assert !Holds(s.state.lock, Owner(b));
    assert Unfinished(s.work, b) ==> AtWork(s.state, b);
  }

  /** An agent that has just entered has not written yet. */
  lemma WroteOnEntry(entered: seq<Agent>, work: map<Agent, Work>, a: Agent)
    requires a !in entered
    ensures Wrote(entered + [a], work[a := Idle]) == Wrote(entered, work)
  {
    WroteIgnores(entered, work, a, Idle);
    assert (entered + [a])[..|entered|] == entered;
  }

  lemma {:induction false} WroteIgnores(entered: seq<Agent>, work: map<Agent, Work>, a: Agent, w: Work)
    requires a !in entered
    ensures Wrote(entered, work[a := w]) == Wrote(entered, work)
  {
    if entered != [] {
      assert entered[|entered| - 1] in entered;
      WroteIgnores(entered[..|entered| - 1], work, a, w);
    }
  }

  /** Changing the work of the last one to enter, which had not written yet. */
  lemma WroteByLast(entered: seq<Agent>, work: map<Agent, Work>, a: Agent, w: Work)
    requires Distinct(entered) && entered != [] && entered[|entered| - 1] == a && a in work && work[a] != Finished(true)
    ensures Wrote(entered, work[a := w]) == Wrote(entered, work) + (if w == Finished(true) then [a] else [])
  {
    var init := entered[..|entered| - 1];
    assert forall i | 0 <= i < |init| :: init[i] == entered[i] && init[i] != a;
    WroteIgnores(init, work, a, w);
    assert Wrote(entered, work) == Wrote(init, work) + [];
  }

  lemma EnteringWork(c: Config, s: Sys, a: Agent, s': Sys)
    requires WorkOk(s.state, s.work) && a in s.state.agents && !s.state.agents[a].released
    requires FlagsMove(c, s.state, a, s'.state) && Enters(s.state, a, s'.state) && s'.work == s.work[a := Idle]
    ensures WorkOk(s'.state, s'.work)
  {
    forall b | Unfinished(s'.work, b) ensures AtWork(s'.state, b) {
      if b != a { assert Unfinished(s.work, b); }
    }
  }

  lemma EnteringOrder(entered: seq<Agent>, work: map<Agent, Work>, a: Agent)
    requires OrderOk(entered, work) && a !in work && forall b | b in work :: work[b].Finished?
    ensures OrderOk(entered + [a], work[a := Idle])
  {
    assert a !in entered;
    assert (entered + [a])[|entered|] == a;
  }

  lemma NotReleasedYet(c: Config, st: State, a: Agent)
    requires Inv(c, st) && a in st.agents && !st.agents[a].installed
    ensures !st.agents[a].released
  {
    assert HistoryOk(c, st, a);
  }

  lemma EnteringLog(k: Sink, files: R.Files, entered: seq<Agent>, work: map<Agent, Work>, a: Agent)
    requires LogOk(k, files, Wrote(entered, work)) && a !in entered
    ensures LogOk(k, files, Wrote(entered + [a], work[a := Idle]))
  {
    WroteOnEntry(entered, work, a);
  }

  lemma EnteringStages(k: Sink, files: R.Files, work: map<Agent, Work>, a: Agent)
    requires StagesOk(k, files, work)
    ensures StagesOk(k, files, work[a := Idle])
  {
  }

  /** A step of the protocol that neither enters nor leaves unfinished work behind. */
  lemma StayingWork(c: Config, s: Sys, a: Agent, s': Sys)
    requires WorkOk(s.state, s.work) && a in s.state.agents && FlagsMove(c, s.state, a, s'.state)
    requires !Enters(s.state, a, s'.state) && (Leaves(s.state, a, s'.state) ==> !Unfinished(s.work, a))
    ensures WorkOk(s'.state, s.work)
  {
    forall b | Unfinished(s.work, b) ensures AtWork(s'.state, b) { assert AtWork(s.state, b); }
  }

  lemma OtherWork(k: Sink, s: Sys, s': Sys)
    requires WorkOk(s.state, s.work) && OtherStep(k, s, s')
    ensures WorkOk(s'.state, s.work)
  {
    if !Tick(s.state, s'.state) {
      var a :| Begin(k.config, s.state, a, s'.state);
      forall b ensures Installed(s'.state, b) <==> Installed(s.state, b) { }
    }
    forall b | Unfinished(s.work, b) ensures AtWork(s'.state, b) { assert AtWork(s.state, b); }
  }

  // ----- Steps of the work -----

  lemma {:induction false} SameBelow(f: R.Files, f': R.Files, n: nat)
    requires forall g: nat | g <= n :: R.At(f', g) == R.At(f, g)
    ensures R.History(f', n) == R.History(f, n)
  {
    if n > 0 { SameBelow(f, f', n - 1); }
  }

  /** Moving a generation up into a free slot changes nothing in what is read oldest to newest. */
  lemma {:induction false} MoveKeepsHistory(f: R.Files, g: nat, n: nat)
    requires 1 <= g <= n && R.SlotAt(f, g) == R.Missing
    ensures R.History(Renamed(f, g), n) == R.History(f, n)
  {
    var f' := Renamed(f, g);
    if n > g {
      MoveKeepsHistory(f, g, n - 1);
    } else if g == 1 {
      assert R.At(f', 0) == [] && R.At(f', 1) == R.At(f, 0) && R.At(f, 1) == [];
      assert R.At(f, 0) + [] == [] + R.At(f, 0);
    } else {
      SameBelow(f, f', g - 2);
      assert R.At(f', g - 1) == [] && R.At(f', g) == R.At(f, g - 1) && R.At(f, g) == [];
    }
  }

  lemma HistoryFromTop(f: R.Files, n: nat)
    requires n > 0
    ensures R.History(f, n) == R.At(f, n) + R.History(f, n - 1)
  {
  }

  lemma DropTopHistory(f: R.Files, f': R.Files, top: nat)
    requires top >= 1 && f' == f - {top}
    ensures R.History(f, top) == R.At(f, top) + R.History(f', top)
  {
    HistoryFromTop(f, top);
    HistoryFromTop(f', top);
    SameBelow(f, f', top - 1);
    assert R.At(f', top) == [];
    NothingInFront(R.History(f', top - 1));
  }

  lemma NothingInFront(h: seq<string>)
    ensures [] + h == h && h + [] == h
  {
  }

  lemma SuffixOfRest(front: seq<string>, h: seq<string>, lines: seq<string>)
    requires IsSuffix(front + h, lines)
    ensures IsSuffix(h, lines)
  {
    assert h == (front + h)[|front|..];
  }

  lemma SuffixGrows(h: seq<string>, lines: seq<string>, line: string)
    requires IsSuffix(h, lines)
    ensures IsSuffix(h + [line], lines + [line])
  {
  }

  lemma MoveKeepsBounded(k: Sink, f: R.Files, g: nat)
    requires 1 <= g <= k.maxFiles && R.Bounded(f, k.maxBytes, k.maxFiles)
    ensures R.Bounded(Renamed(f, g), k.maxBytes, k.maxFiles) && R.SlotAt(Renamed(f, g), g - 1) == R.Missing
  {
  }

  /** What the files must satisfy after an operation of `a` that leaves it at `w`. */
  predicate FilesAfter(k: Sink, lines: seq<string>, a: Agent, files: R.Files, w: Work) {
    && R.Bounded(files, k.maxBytes, k.maxFiles) && StageOk(k, files, a, w)
    && IsSuffix(R.History(files, k.maxFiles), lines + (if w == Finished(true) then [k.line(a)] else []))
  }

  /** The files meet what they must meet before such an operation. */
  predicate FilesBefore(k: Sink, lines: seq<string>, a: Agent, files: R.Files, w: Work) {
    && R.Bounded(files, k.maxBytes, k.maxFiles) && StageOk(k, files, a, w)
    && IsSuffix(R.History(files, k.maxFiles), lines)
  }

  lemma DropFiles(k: Sink, lines: seq<string>, a: Agent, f: R.Files)
    requires k.Valid() && FilesBefore(k, lines, a, f, Dropping)
    ensures FilesAfter(k, lines, a, f - {k.maxFiles}, Rotating(k.maxFiles))
  {
    var f' := f - {k.maxFiles};
    NothingInFront(lines);
    DropTopHistory(f, f', k.maxFiles);
    SuffixOfRest(R.At(f, k.maxFiles), R.History(f', k.maxFiles), lines);
  }

  lemma MoveFiles(k: Sink, lines: seq<string>, a: Agent, f: R.Files, g: nat)
    requires k.Valid() && FilesBefore(k, lines, a, f, Rotating(g))
    ensures FilesAfter(k, lines, a, Renamed(f, g), if g == 1 then Appending else Rotating(g - 1))
  {
    assert lines + [] == lines;
    MoveKeepsHistory(f, g, k.maxFiles);
    MoveKeepsBounded(k, f, g);
  }

  lemma AppendFiles(k: Sink, lines: seq<string>, a: Agent, f: R.Files)
    requires k.Valid() && FilesBefore(k, lines, a, f, Appending)
    ensures FilesAfter(k, lines, a, f[0 := R.At(f, 0) + [k.line(a)]], Finished(true))
  {
    var f' := f[0 := R.At(f, 0) + [k.line(a)]];
    R.HistoryOfAppend(f, k.line(a), k.maxFiles);
    R.RecordKeepsBounded(f, k.line(a), k.maxBytes, k.maxFiles, f');
    SuffixGrows(R.History(f, k.maxFiles), lines, k.line(a));
  }

  lemma OperationFiles(k: Sink, lines: seq<string>, a: Agent, f: R.Files, w: Work, f': R.Files, w': Work)
    requires k.Valid() && Operates(k, a, f, w, f', w') && FilesBefore(k, lines, a, f, w)
    ensures FilesAfter(k, lines, a, f', w')
  {
    NothingInFront(lines);
    match w
    case Dropping => DropFiles(k, lines, a, f);
    case Rotating(g) => MoveFiles(k, lines, a, f, g);
    case Appending => if w' == Finished(true) { AppendFiles(k, lines, a, f); }
    case Idle =>
  }

  lemma LinesOfMore(k: Sink, agents: seq<Agent>, a: Agent)
    ensures LinesOf(k, agents + [a]) == LinesOf(k, agents) + [k.line(a)]
  {
    assert (agents + [a])[..|agents|] == agents;
  }

  /** The log after an operation of `a`, the last one to enter. */
  lemma LogAfter(k: Sink, entered: seq<Agent>, work: map<Agent, Work>, a: Agent, files: R.Files, w: Work)
    requires OrderOk(entered, work) && Unfinished(work, a)
    requires FilesAfter(k, LinesOf(k, Wrote(entered, work)), a, files, w)
    ensures LogOk(k, files, Wrote(entered, work[a := w]))
  {
    var wrote := Wrote(entered, work);
    WroteByLast(entered, work, a, w);
    LinesOfMore(k, wrote, a);
    NothingInFront(LinesOf(k, wrote));
    assert wrote + [] == wrote;
  }

  lemma WorkOrder(entered: seq<Agent>, work: map<Agent, Work>, a: Agent, w: Work)
    requires OrderOk(entered, work) && Unfinished(work, a)
    ensures OrderOk(entered, work[a := w])
  {
    var work' := work[a := w];
    forall b | Unfinished(work', b) ensures entered != [] && b == entered[|entered| - 1] {
      assert Unfinished(work, b);
    }
  }

  lemma WorkSound(k: Sink, s: Sys, a: Agent, s': Sys)
    requires k.Valid() && Sound(k, s) && WorkStep(k, s, a, s')
    ensures Sound(k, s')
  {
    var w := s'.work[a];
    assert Unfinished(s.work, a) && s'.work == s.work[a := w];
    assert StageOk(k, s.files, a, s.work[a]);
    OperationFiles(k, LinesOf(k, Wrote(s.entered, s.work)), a, s.files, s.work[a], s'.files, w);
    LogAfter(k, s.entered, s.work, a, s'.files, w);
    WorkOrder(s.entered, s.work, a, w);
    WorkStages(k, s'.files, s.entered, s.work, a, w);
    WorkHolders(s.state, s.work, a, w);
  }

  lemma WorkStages(k: Sink, files: R.Files, entered: seq<Agent>, work: map<Agent, Work>, a: Agent, w: Work)
    requires OrderOk(entered, work) && Unfinished(work, a) && StageOk(k, files, a, w)
    ensures StagesOk(k, files, work[a := w])
  {
    forall b | b in work && b != a ensures work[b].Finished? { assert !Unfinished(work, b); }
  }

  lemma WorkHolders(st: State, work: map<Agent, Work>, a: Agent, w: Work)
    requires WorkOk(st, work) && Unfinished(work, a)
    ensures WorkOk(st, work[a := w])
  {
    var work' := work[a := w];
    forall b | Unfinished(work', b) ensures AtWork(st, b) { assert Unfinished(work, b); }
  }

  // ----- Every run without claims -----

  lemma AgentSound(k: Sink, s: Sys, a: Agent, s': Sys)
    requires Sound(k, s) && NoClaims(s.state) && AgentStep(k, s, a, s') && Inv(k.config, s'.state)
    ensures Sound(k, s')
  {
    StepFlags(k.config, s.state, a, s'.state);
    if Enters(s.state, a, s'.state) {
      NotReleasedYet(k.config, s.state, a);
      forall b | b in s.work ensures s.work[b].Finished? { EntryIsExclusive(k, s, b); }
      assert a !in s.work && a !in s.entered;
      EnteringWork(k.config, s, a, s');
      EnteringOrder(s.entered, s.work, a);
      EnteringStages(k, s.files, s.work, a);
      EnteringLog(k, s.files, s.entered, s.work, a);
    } else {
      StayingWork(k.config, s, a, s');
    }
  }

  lemma NextSound(k: Sink, s: Sys, s': Sys)
    requires k.Valid() && Sound(k, s) && NoClaims(s.state) && SysNext(k, s, s')
    ensures Sound(k, s')
  {
    if OtherStep(k, s, s') {
      NextKeepsInv(k.config, s.state, s'.state);
      OtherWork(k, s, s');
    } else if a :| AgentStep(k, s, a, s') {
      NextKeepsInv(k.config, s.state, s'.state);
      AgentSound(k, s, a, s');
    } else {
      var a :| WorkStep(k, s, a, s');
      WorkSound(k, s, a, s');
    }
  }

  lemma InitSound(k: Sink, s: Sys)
    requires k.Valid() && SysInit(s)
    ensures Sound(k, s)
  {
    R.EmptyHistory(k.maxFiles);
  }

  lemma {:induction false} RunSound(k: Sink, run: seq<Sys>, n: nat)
    requires k.Valid() && IsSysRun(k, run) && n < |run|
    requires forall i | 0 <= i < n :: NoClaims(run[i].state)
    ensures Sound(k, run[n])
  {
    if n == 0 {
      InitSound(k, run[0]);
    } else {
      RunSound(k, run, n - 1);
      assert SysStepAt(k, run, n);
      NextSound(k, run[n - 1], run[n]);
    }
  }

  /**
  In every run without claimed markers, at every moment, also in the middle of a rotation and after any
  crash: the files read oldest to newest are exactly the last lines of the calls that wrote, in the order
  in which those calls entered the section; each file fits the limit or is one line, and there are at
  most maxFiles + 1 of them.
   */
  lemma LogFollowsEntryOrder(k: Sink, run: seq<Sys>, n: nat)
    requires k.Valid() && IsSysRun(k, run) && n < |run|
    requires forall i | 0 <= i < n :: NoClaims(run[i].state)
    ensures IsSuffix(R.History(run[n].files, k.maxFiles), LinesOf(k, Wrote(run[n].entered, run[n].work)))
    ensures R.Bounded(run[n].files, k.maxBytes, k.maxFiles) && |run[n].files| <= k.maxFiles + 1
  {
    RunSound(k, run, n);
    R.KeysBelowCount(run[n].files, k.maxFiles + 1);
  }

  /** And at most one agent is ever in the middle of its work on the files. */
  lemma WorkIsExclusive(k: Sink, run: seq<Sys>, n: nat, a: Agent, b: Agent)
    requires k.Valid() && IsSysRun(k, run) && n < |run|
    requires forall i | 0 <= i < n :: NoClaims(run[i].state)
    requires Unfinished(run[n].work, a) && Unfinished(run[n].work, b)
    ensures a == b
  {
    RunSound(k, run, n);
  }

  // ----- What each operation does to the log -----

  /** The lines in the log, oldest first. */
  function Log(k: Sink, files: R.Files): seq<string> { R.History(files, k.maxFiles) }

  /** The log is as it was, lost its top generation and nothing else, or gained a line at its end. */
  ghost predicate LogMoves(k: Sink, a: Agent, f: R.Files, w: Work, f': R.Files, w': Work) {
    match w
    case Idle =>
      && f' == f
      && (w' == Dropping <==>
          R.LinesBytes(R.At(f, 0)) > 0 && R.LinesBytes(R.At(f, 0)) + Bytes(k.line(a)) > k.maxBytes)
    case Dropping => Log(k, f) == R.At(f, k.maxFiles) + Log(k, f')
    case Rotating(_) => Log(k, f') == Log(k, f)
    case Appending => Log(k, f') == Log(k, f) + (if w' == Finished(true) then [k.line(a)] else [])
    case Finished(_) => false
  }

  lemma OperationMovesLog(k: Sink, a: Agent, f: R.Files, w: Work, f': R.Files, w': Work)
    requires k.Valid() && Operates(k, a, f, w, f', w') && StageOk(k, f, a, w)
    ensures LogMoves(k, a, f, w, f', w')
  {
    match w
    case Dropping => DropTopHistory(f, f', k.maxFiles);
    case Rotating(g) => MoveKeepsHistory(f, g, k.maxFiles);
    case Appending =>
      R.HistoryOfAppend(f, k.line(a), k.maxFiles);
      NothingInFront(Log(k, f));
    case _ =>
  }

  /**
  In every run without claims each step leaves the log as it is, or it is an operation of an agent at work
  that drops the top generation and nothing else, or appends that agent's line and nothing else.
   */
  lemma LogLosesOnlyTop(k: Sink, run: seq<Sys>, n: nat)
    requires k.Valid() && IsSysRun(k, run) && 0 < n < |run|
    requires forall i | 0 <= i < n :: NoClaims(run[i].state)
    ensures run[n].files == run[n - 1].files
            || exists a :: && a in run[n - 1].work && a in run[n].work
                           && LogMoves(k, a, run[n - 1].files, run[n - 1].work[a], run[n].files, run[n].work[a])
  {
    RunSound(k, run, n - 1);
    assert SysStepAt(k, run, n);
    var s, s' := run[n - 1], run[n];
    if s'.files != s.files {
      var a :| WorkStep(k, s, a, s');
      assert StageOk(k, s.files, a, s.work[a]);
      OperationMovesLog(k, a, s.files, s.work[a], s'.files, s'.work[a]);
    }
  }

  // ----- The work comes to its end -----

  function WorkRank(k: Sink, w: Work): nat {
    match w
    case Idle => k.maxFiles + 3
    case Dropping => k.maxFiles + 2
    case Rotating(g) => g + 1
    case Appending => 1
    case Finished(_) => 0
  }

  /** An operation that does not fail. */
  predicate OkOperates(k: Sink, a: Agent, x: (R.Files, Work), y: (R.Files, Work)) {
    Operates(k, a, x.0, x.1, y.0, y.1) && y.1 != Finished(false)
  }

  lemma OperationAdvances(k: Sink, a: Agent, x: (R.Files, Work), y: (R.Files, Work))
    requires k.Valid() && OkOperates(k, a, x, y)
    ensures WorkRank(k, y.1) < WorkRank(k, x.1)
    ensures y.1.Finished? ==> y.1 == Finished(true) && Log(k, y.0) == Log(k, x.0) + [k.line(a)]
  {
    if y.1.Finished? { R.HistoryOfAppend(x.0, k.line(a), k.maxFiles); }
  }

  lemma OperationIsEnabled(k: Sink, a: Agent, x: (R.Files, Work)) returns (y: (R.Files, Work))
    requires !x.1.Finished? && (x.1.Rotating? ==> x.1.g >= 1)
    ensures OkOperates(k, a, x, y)
  {
    match x.1
    case Idle => y := (x.0, if R.NeedsRotation(x.0, Bytes(k.line(a)), k.maxBytes) then Dropping else Appending);
    case Dropping => y := (x.0 - {k.maxFiles}, Rotating(k.maxFiles));
    case Rotating(g) => y := (Renamed(x.0, g), if g == 1 then Appending else Rotating(g - 1));
    case Appending => y := (x.0[0 := R.At(x.0, 0) + [k.line(a)]], Finished(true));
  }

  /** Work in which no operation fails ends within maxFiles + 3 operations with the line at the end of the log. */
  lemma {:induction false} WorkEndsWithLine(k: Sink, a: Agent, run: seq<(R.Files, Work)>, n: nat) returns (i: nat)
    requires k.Valid() && 0 <= n < |run| && !run[0].1.Finished? && WorkRank(k, run[0].1) <= n
    requires forall j | 0 < j < |run| :: run[j - 1].1.Finished? || OkOperates(k, a, run[j - 1], run[j])
    ensures 0 < i <= n && run[i].1 == Finished(true)
    ensures Log(k, run[i].0) == Log(k, run[i - 1].0) + [k.line(a)]
  {
    assert OkOperates(k, a, run[0], run[1]);
    OperationAdvances(k, a, run[0], run[1]);
    if run[1].1.Finished? {
      i := 1;
    } else {
      var rest := run[1..];
      assert forall j | 0 < j < |rest| :: rest[j] == run[j + 1] && rest[j - 1] == run[j];
      i := WorkEndsWithLine(k, a, rest, n - 1);
      i := i + 1;
    }
  }

  // ----- Nothing is held back -----

  /** Every step of the lock protocol is a step here, except to leave the section with work unfinished. */
  lemma ProtocolGoesOn(k: Sink, s: Sys, a: Agent, st: State) returns (s': Sys)
    requires Leaves(s.state, a, st) ==> a in s.work && s.work[a].Finished?
    requires StepBy(k.config, s.state, a, st) || Begin(k.config, s.state, a, st) || Tick(s.state, st)
    ensures SysNext(k, s, s') && s'.state == st && s'.files == s.files
  {
    if StepBy(k.config, s.state, a, st) {
      s' := if Enters(s.state, a, st) then Sys(st, s.files, s.work[a := Idle], s.entered + [a])
            else s.(state := st);
      assert AgentStep(k, s, a, s');
    } else {
      s' := s.(state := st);
      assert OtherStep(k, s, s');
    }
  }

  lemma InSectionIsAtWork(k: Sink, s: Sys, a: Agent)
    requires Sound(k, s) && a in s.state.agents && s.state.agents[a].pc == Critical
    ensures a in s.work && StageOk(k, s.files, a, s.work[a])
  {
    assert PcOk(k.config, s.state, a);
    assert Installed(s.state, a);
  }

  lemma WorkGoesOn(k: Sink, s: Sys, a: Agent) returns (s': Sys)
    requires a in s.work && !s.work[a].Finished? && StageOk(k, s.files, a, s.work[a])
    requires a in s.state.agents && s.state.agents[a].pc == Critical
    ensures SysNext(k, s, s') && a in s'.work && s'.state == s.state
    ensures OkOperates(k, a, (s.files, s.work[a]), (s'.files, s'.work[a]))
  {
    var y := OperationIsEnabled(k, a, (s.files, s.work[a]));
    s' := s.(files := y.0, work := s.work[a := y.1]);
    assert WorkStep(k, s, a, s');
  }

  lemma WorkerLeaves(k: Sink, s: Sys, a: Agent) returns (s': Sys)
    requires a in s.work && s.work[a].Finished? && a in s.state.agents && s.state.agents[a].pc == Critical
    ensures SysNext(k, s, s') && s' == s.(state := Goto(s.state, a, DropOwner))
  {
    s' := s.(state := Goto(s.state, a, DropOwner));
    assert ReleaseStep(k.config, s.state, a, s'.state);
    assert AgentStep(k, s, a, s');
  }

  /** In every run a call in the section can do the next operation of its work, and leave once that is over. */
  lemma SectionIsNeverStuck(k: Sink, run: seq<Sys>, n: nat, a: Agent) returns (s': Sys)
    requires k.Valid() && IsSysRun(k, run) && n < |run| && (forall i | 0 <= i < n :: NoClaims(run[i].state))
    requires a in run[n].state.agents && run[n].state.agents[a].pc == Critical
    ensures SysNext(k, run[n], s') && a in run[n].work && a in s'.work && a in s'.state.agents
    ensures if run[n].work[a].Finished? then s'.files == run[n].files && s'.state.agents[a].pc == DropOwner
            else && s'.state == run[n].state
                 && OkOperates(k, a, (run[n].files, run[n].work[a]), (s'.files, s'.work[a]))
  {
    assert a in run[n].work && StageOk(k, run[n].files, a, run[n].work[a]) by {
      RunSound(k, run, n);
      InSectionIsAtWork(k, run[n], a);
    }
    if run[n].work[a].Finished? {
      s' := WorkerLeaves(k, run[n], a);
    } else {
      s' := WorkGoesOn(k, run[n], a);
    }
  }

  /** An append can fail, which ends the work without a line. */
  lemma AppendCanFail(k: Sink, s: Sys, a: Agent)
    requires a in s.work && s.work[a] == Appending && a in s.state.agents && s.state.agents[a].pc == Critical
    ensures SysNext(k, s, s.(work := s.work[a := Finished(false)]))
  {
    assert WorkStep(k, s, a, s.(work := s.work[a := Finished(false)]));
  }
}
