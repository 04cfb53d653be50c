/**
The verdict on a project configuration before a write, on POSIX paths: a chain of checks over an
arbitrary file system with links, of which only the last outcome is ready for writing.
 */
module ProjectVerdict {
  import opened Wrappers
  import StaleSweep

  /** An absolute, normalised path as its list of names. */
  type Path = seq<string>

  /** A path as written in the config or the request. */
  datatype Raw = Raw(absolute: bool, parts: seq<string>)

  /**
  What the checks ask of the system: existence, canonical path, directories holding `.git`, the working
  directory of the process, which the empty path resolves to, and what a path recorded as text names.
   */
  datatype World = World(
    onDisk: Path -> bool, canonical: Path -> Option<Path>, hasGit: Path -> bool, cwd: Path, named: string -> Path)

  /** A canonical path has no links left in it: each directory on the way is its own canonical path. */
  ghost predicate LinkFree(w: World, p: Path) {
    forall n | 0 <= n <= |p| :: w.canonical(p[..n]) == Some(p[..n])
  }

  ghost predicate RealpathResolves(w: World) {
    forall p: Path | w.canonical(p).Some? :: LinkFree(w, w.canonical(p).value)
  }

  datatype Status =
    | Valid | Absent | InvalidSchema | IdMismatch | PathMismatch | OutsideProjectRoot | DestinationRootNotFound
    | WriteLockedByRunningOp | CapabilitiesDisallowWrite | TargetNotFound | Ambiguous | Threw

  datatype Config = Config(
    id: Option<string>, legacyProjectId: Option<string>, frontendFile: Option<Raw>, accessPath: Option<Raw>,
    backendPath: Option<Raw>, destinationRoot: Option<Raw>, allowWritesIsFalse: bool)

  datatype Request = Request(
    operation: Option<string>, numericPid: bool, projectId: Option<string>,
    accessPath: Option<Raw>, accessDbPath: Option<Raw>, databasePath: Option<Raw>, sourcePath: Option<Raw>,
    backendPath: Option<Raw>, destinationRoot: Option<Raw>, projectRoot: Option<Raw>,
    allowExternalAccessPath: bool, allowExternalDestinationRoot: bool, applyIsFalse: bool, mutatesBinaryIsFalse: bool)

  /**
  Everything else the chain reads: `local` are the .accdb names at the root, sorted, `runtime` the records
  of running operations and `sweep` the moment and threshold at which they are swept.
   */
  datatype Case = Case(
    root: Path, candidateSupplied: bool, parsed: Option<Config>, local: seq<string>, request: Request,
    runtime: StaleSweep.Runtime, sweep: StaleSweep.Sweep)

  // ----- Paths -----

  function Walk(base: Path, parts: seq<string>): Path
    decreases |parts|
  {
    if parts == [] then base
    else
      var p, rest := parts[0], parts[1..];
      if p == "" || p == "." then Walk(base, rest)
      else if p == ".." then Walk(if base == [] then [] else base[..|base| - 1], rest)
      else Walk(base + [p], rest)
  }

  function Resolve(base: Path, r: Raw): Path { Walk(if r.absolute then [] else base, r.parts) }

  predicate IsEmpty(r: Raw) { !r.absolute && r.parts == [] }

  predicate IsBasename(r: Raw) { !r.absolute && |r.parts| == 1 }

  function Dirname(p: Path): Path { if p == [] then [] else p[..|p| - 1] }

  predicate StartsWithDots(name: string) { |name| >= 2 && name[..2] == ".." }

  /** The child lies under the root; a name that merely begins with two dots counts as outside. */
  predicate Within(child: Path, root: Path) {
    root <= child && (|child| == |root| || !StartsWithDots(child[|root|]))
  }

  function WorktreeRoot(w: World, p: Path): Option<Path> {
    if w.hasGit(p) then Some(p) else if p == [] then None else WorktreeRoot(w, p[..|p| - 1])
  }

  /** The path a worktree lookup is compared by: a failed lookup becomes the empty path, hence the working directory. */
  function LookedUp(w: World, p: Path): Path {
    var r := WorktreeRoot(w, p);
    if r.Some? then r.value else w.cwd
  }

  /** The walk upwards, as the loop that performs it. */
  method FindWorktreeRoot(w: World, cwd: Path) returns (root: Option<Path>)
    ensures root == WorktreeRoot(w, cwd)
  {
    var cursor := cwd;
    while true
      invariant WorktreeRoot(w, cursor) == WorktreeRoot(w, cwd)
      decreases |cursor|
    {
      if w.hasGit(cursor) { return Some(cursor); }
      if cursor == [] { return None; }
      cursor := Dirname(cursor);
    }
  }

  /** The walk finds the nearest enclosing directory with `.git`, and misses only if there is none. */
  lemma {:induction false} WorktreeRootIsNearest(w: World, p: Path)
    ensures WorktreeRoot(w, p).Some? <==> exists n :: 0 <= n <= |p| && w.hasGit(p[..n])
    ensures WorktreeRoot(w, p).Some? ==>
      var r := WorktreeRoot(w, p).value;
      r <= p && w.hasGit(r) && forall n | |r| < n <= |p| :: !w.hasGit(p[..n])
  {
    assert p[..|p|] == p;
    if !w.hasGit(p) && p != [] {
      var q := p[..|p| - 1];
      WorktreeRootIsNearest(w, q);
      assert forall n | 0 <= n <= |q| :: q[..n] == p[..n];
      if n :| 0 <= n <= |p| && w.hasGit(p[..n]) {
        assert n != |p|;
        assert w.hasGit(q[..n]);
      }
      if n :| 0 <= n <= |q| && w.hasGit(q[..n]) { assert w.hasGit(p[..n]); }
    }
  }

  // ----- Derived values -----

  function Truthy(r: Option<Raw>): Option<Raw> { if r.Some? && !IsEmpty(r.value) then r else None }

  function ProjectId(c: Config): Option<string> {
    if c.id.Some? && c.id.value != "" then c.id
    else if c.legacyProjectId.Some? && c.legacyProjectId.value != "" then c.legacyProjectId
    else None
  }

  function Frontend(c: Config): Option<Raw> {
    if Truthy(c.frontendFile).Some? then c.frontendFile else Truthy(c.accessPath)
  }

  function AccessPath(k: Case, c: Config): Path
    requires Frontend(c).None? ==> k.local != []
  {
    Resolve(k.root, if Frontend(c).Some? then Frontend(c).value else Raw(false, [k.local[0]]))
  }

  function BackendPath(k: Case, c: Config): Option<Path> {
    if Truthy(c.backendPath).Some? then Some(Resolve(k.root, c.backendPath.value)) else None
  }

  function DestinationRoot(k: Case, c: Config): Path {
    if Truthy(c.destinationRoot).Some? then Resolve(k.root, c.destinationRoot.value) else k.root + ["src"]
  }

  function EffectiveDestination(k: Case, c: Config): Path {
    if Truthy(k.request.destinationRoot).Some? then Resolve(k.root, k.request.destinationRoot.value)
    else DestinationRoot(k, c)
  }

  /** An export preview, explicitly not applied, whose destination may lie elsewhere. */
  predicate ExternalPlan(r: Request) {
    r.operation == Some("export_modules") && r.allowExternalDestinationRoot && r.applyIsFalse
  }

  predicate ExternalRead(r: Request) { r.allowExternalAccessPath && r.mutatesBinaryIsFalse }

  predicate OrphanRetire(r: Request) { r.operation == Some("access_force_cleanup_orphaned") && r.numericPid }

  /** A neighbouring worktree that owns the frontend, recognised only when no link is involved. */
  function SiblingRoot(w: World, k: Case, c: Config, access: Path, canonicalRoot: Path): Option<Path> {
    if c.accessPath.None? || Within(access, k.root) then None
    else match w.canonical(access)
      case None => None
      case Some(ca) =>
        if Resolve(k.root, c.accessPath.value) != ca then None
        else match WorktreeRoot(w, Dirname(ca))
          case None => None
          case Some(s) => if Dirname(canonicalRoot) != Dirname(s) || s == canonicalRoot then None else Some(s)
  }

  predicate FormOperation(op: string) {
    (|op| >= 5 && op[..5] == "form_") || op == "apply_form_design_plan" || op == "create_form_from_template"
  }

  predicate NamesBackendDatabase(k: Case, c: Config, value: Option<Raw>) {
    && value.Some? && BackendPath(k, c).Some?
    && (k.request.operation == Some("query_execute") || k.request.operation == Some("query_sql"))
    && Resolve(k.root, value.value) == BackendPath(k, c).value
  }

  function Present(value: Option<Raw>): seq<Raw> { if value.Some? then [value.value] else [] }

  /** The request fields that name the frontend. */
  function Aliases(k: Case, c: Config): seq<Raw> {
    var r := k.request;
    Present(r.accessPath) + Present(r.accessDbPath)
    + (if NamesBackendDatabase(k, c, r.databasePath) then [] else Present(r.databasePath))
    + (if (r.operation.None? || !FormOperation(r.operation.value)) && !NamesBackendDatabase(k, c, r.sourcePath)
       then Present(r.sourcePath) else [])
  }

  function Targets(k: Case, c: Config): set<Path> { set a | a in Aliases(k, c) :: Resolve(k.root, a) }

  function RequestedTarget(k: Case, c: Config): Option<Path> {
    if Aliases(k, c) != [] then Some(Resolve(k.root, Aliases(k, c)[0]))
    else if k.request.backendPath.Some? then Some(Resolve(k.root, k.request.backendPath.value))
    else None
  }

  // ----- The chain, in four stretches -----

  /** Selecting and reading the configuration file. */
  function SelectionStatus(w: World, k: Case, canonicalRoot: Path): Status {
    var config, legacy := k.root + [".dysflow", "project.json"], k.root + ["dysflow.project.json"];
    var first, second := k.candidateSupplied || w.onDisk(config), w.onDisk(legacy);
    if !first && !second then Absent
    else if first && second then Ambiguous
    else
      var directory := w.canonical(Dirname(if first then config else legacy));
      if directory.None? || !Within(directory.value, canonicalRoot) then OutsideProjectRoot
      else if k.parsed.None? then Ambiguous
      else Valid
  }

  /** Naming the frontend. */
  function FrontendStatus(k: Case, c: Config): Status {
    if Frontend(c).Some? && !IsBasename(Frontend(c).value) then PathMismatch
    else if Frontend(c).None? && k.local == [] then InvalidSchema
    else if Frontend(c).None? && |k.local| > 1 then Ambiguous
    else Valid
  }

  /** Identity, capability, and the configured and requested destination. */
  function DestinationStatus(
      w: World, k: Case, c: Config, access: Path, canonicalRoot: Path, sibling: Option<Path>, owning: Path): Status {
    var r, configured, effective := k.request, DestinationRoot(k, c), EffectiveDestination(k, c);
    if r.projectId.Some? && r.projectId != ProjectId(c) then IdMismatch
    else if c.allowWritesIsFalse && !OrphanRetire(r) then CapabilitiesDisallowWrite
    else if sibling.None? && (!Within(access, k.root) || !Within(configured, k.root)) then PathMismatch
    else if r.destinationRoot.Some? && !DestinationAccepted(k, c) then OutsideProjectRoot
    else OnDiskStatus(w, k, effective, canonicalRoot, owning)
  }

  function OnDiskStatus(w: World, k: Case, effective: Path, canonicalRoot: Path, owning: Path): Status {
    if !w.onDisk(effective) then DestinationRootNotFound
    else match w.canonical(effective)
      case None => OutsideProjectRoot
      case Some(cd) =>
        if ExternalPlan(k.request) && cd != effective then OutsideProjectRoot
        else if !ExternalPlan(k.request) && !DestinationOwned(w, cd, owning, canonicalRoot) then OutsideProjectRoot
        else if k.request.projectRoot.Some?
                && w.canonical(Resolve(k.root, k.request.projectRoot.value)) != Some(canonicalRoot)
          then OutsideProjectRoot
        else Valid
  }

  predicate DestinationAccepted(k: Case, c: Config)
    requires k.request.destinationRoot.Some?
  {
    var requested := Resolve(k.root, k.request.destinationRoot.value);
    || requested == DestinationRoot(k, c)
    || (Within(requested, k.root)
        && !(c.accessPath.Some? && !IsEmpty(c.accessPath.value) && !IsBasename(c.accessPath.value)))
    || ExternalPlan(k.request)
  }

  predicate DestinationOwned(w: World, cd: Path, owning: Path, canonicalRoot: Path) {
    var d := LookedUp(w, cd);
    (d == owning || d == canonicalRoot) && Within(cd, d)
  }

  /** The frontend, the backend, and what the request asks to act on. */
  function TargetStatus(w: World, k: Case, c: Config, access: Path, sibling: Option<Path>, owning: Path): Status {
    var backend := BackendPath(k, c);
    if |Targets(k, c)| > 1 then Ambiguous
    else if !w.onDisk(access) then TargetNotFound
    else match w.canonical(access)
      case None => OutsideProjectRoot
      case Some(ca) =>
        if LookedUp(w, Dirname(ca)) != owning then OutsideProjectRoot
        else if backend.Some? && w.canonical(backend.value).None? then TargetNotFound
        else if k.request.backendPath.Some? && backend.Some?
                && Resolve(k.root, k.request.backendPath.value) != backend.value
          then OutsideProjectRoot
        else if RequestedTarget(k, c).None? then Valid
        else RequestedStatus(w, k, c, RequestedTarget(k, c).value, ca, sibling, owning)
  }

  function RequestedStatus(
      w: World, k: Case, c: Config, target: Path, ca: Path, sibling: Option<Path>, owning: Path): Status {
    var backend, external := BackendPath(k, c), ExternalRead(k.request);
    var outside := !Within(target, if sibling.Some? then sibling.value else k.root);
    if !w.onDisk(target) && outside && backend != Some(target) && !external then OutsideProjectRoot
    else match w.canonical(target)
      case None => TargetNotFound
      case Some(ct) =>
        var isBackend := backend.Some? && w.canonical(backend.value) == Some(ct);
        if !isBackend && outside && !external then OutsideProjectRoot
        else if !isBackend && !external && (LookedUp(w, Dirname(ct)) != owning || ct != ca) then OutsideProjectRoot
        else Valid
  }

  /** The operations that would collide with the write: those of this project root and this frontend. */
  function Target(w: World, k: Case, access: Path): StaleSweep.Target {
    StaleSweep.Target((s: string) => w.named(s) == k.root, (s: string) => w.named(s) == access)
  }

  function Diagnose(w: World, k: Case): Status {
    match w.canonical(k.root)
    case None => Threw
    case Some(canonicalRoot) =>
      var selection := SelectionStatus(w, k, canonicalRoot);
      if selection != Valid then selection
      else
        var c := k.parsed.value;
        if FrontendStatus(k, c) != Valid then FrontendStatus(k, c)
        else
          var access := AccessPath(k, c);
          var sibling := SiblingRoot(w, k, c, access, canonicalRoot);
          if sibling.Some? && w.canonical(sibling.value).None? then Threw
          else
            var owning := if sibling.Some? then w.canonical(sibling.value).value else canonicalRoot;
            var destination := DestinationStatus(w, k, c, access, canonicalRoot, sibling, owning);
            if destination != Valid then destination
            else
              var target := TargetStatus(w, k, c, access, sibling, owning);
              if target != Valid then target
              else if StaleSweep.GateIds(k.sweep, Target(w, k, access), k.runtime) != [] then WriteLockedByRunningOp
              else Valid
  }

  /** The worktree whose ownership counts: the sibling if one is recognised, else the project root. */
  function Owning(w: World, k: Case): Option<Path> {
    if w.canonical(k.root).None? || k.parsed.None? || FrontendStatus(k, k.parsed.value) != Valid then None
    else
      var sibling := SiblingRoot(w, k, k.parsed.value, AccessPath(k, k.parsed.value), w.canonical(k.root).value);
      if sibling.Some? then w.canonical(sibling.value) else w.canonical(k.root)
  }

  /** The sibling worktree recognised as owner of the frontend, if any. */
  function Sibling(w: World, k: Case): Option<Path> {
    if w.canonical(k.root).None? || k.parsed.None? || FrontendStatus(k, k.parsed.value) != Valid then None
    else SiblingRoot(w, k, k.parsed.value, AccessPath(k, k.parsed.value), w.canonical(k.root).value)
  }

  // ----- What a valid verdict guarantees -----

  lemma ValidReaches(w: World, k: Case)
    requires Diagnose(w, k) == Valid
    ensures k.parsed.Some? && FrontendStatus(k, k.parsed.value) == Valid
    ensures w.canonical(k.root).Some? && Owning(w, k).Some?
  {
  }

  /**
  A valid verdict answers the request that was made: a requested id is the id of the config, writes are
  allowed or an orphan is being retired, and a requested backend is the configured one whenever one is
  configured. No operation blocks: after the sweeps no record of the registry and no listed marker is
  running against this root and frontend, and each that was running before them had grown stale.
   */
  lemma ValidRequest(w: World, k: Case)
    requires Diagnose(w, k) == Valid
    ensures k.parsed.Some? && FrontendStatus(k, k.parsed.value) == Valid
    ensures var c := k.parsed.value;
            && (k.request.projectId.Some? ==> k.request.projectId == ProjectId(c))
            && (c.allowWritesIsFalse ==> OrphanRetire(k.request))
            && (k.request.backendPath.Some? && BackendPath(k, c).Some? ==>
                  Resolve(k.root, k.request.backendPath.value) == BackendPath(k, c).value)
    ensures var t := Target(w, k, AccessPath(k, k.parsed.value));
            && StaleSweep.NothingBlocks(t, StaleSweep.RegistryAfter(k.sweep, k.runtime), k.runtime.names,
                                        StaleSweep.MarkersAfter(k.sweep, k.runtime))
            && StaleSweep.AllRetirable(k.sweep, t, k.runtime)
  {
    ValidReaches(w, k);
    StaleSweep.GateOpensIff(k.sweep, Target(w, k, AccessPath(k, k.parsed.value)), k.runtime);
  }

  /** The file lies in the worktree at `owning`, and no nearer worktree encloses it. */
  ghost predicate OwnedBy(w: World, file: Path, owning: Path) {
    && owning <= Dirname(file) && w.hasGit(owning)
    && forall n | |owning| < n <= |Dirname(file)| :: !w.hasGit(Dirname(file)[..n])
  }

  /**
  The canonical frontend lies in the owning worktree exactly when it lies in any worktree at all. The
  check lets a frontend outside every worktree through if the process runs in the owning worktree.
   */
  lemma ValidFrontendOwnedIff(w: World, k: Case)
    requires Diagnose(w, k) == Valid
    ensures k.parsed.Some? && FrontendStatus(k, k.parsed.value) == Valid && Owning(w, k).Some?
    ensures var access, owning := AccessPath(k, k.parsed.value), Owning(w, k).value;
            && w.onDisk(access) && w.canonical(access).Some?
            && var file := w.canonical(access).value;
               && (OwnedBy(w, file, owning) <==> exists n :: 0 <= n <= |Dirname(file)| && w.hasGit(Dirname(file)[..n]))
               && (w.cwd != owning ==> OwnedBy(w, file, owning))
  {
    var owning, dir := Owning(w, k).value, Dirname(w.canonical(AccessPath(k, k.parsed.value)).value);
    WorktreeRootIsNearest(w, dir);
    if owning <= dir && w.hasGit(owning) { assert dir[..|owning|] == owning; }
  }

  /** A case is valid when each stretch of the chain lets it pass. */
  lemma AllStretchesPass(w: World, k: Case, c: Config, access: Path, root: Path, sibling: Option<Path>, owning: Path)
    requires k.parsed == Some(c) && w.canonical(k.root) == Some(root) && SelectionStatus(w, k, root) == Valid
    requires FrontendStatus(k, c) == Valid && AccessPath(k, c) == access
    requires SiblingRoot(w, k, c, access, root) == sibling
    requires if sibling.Some? then w.canonical(sibling.value) == Some(owning) else owning == root
    requires DestinationStatus(w, k, c, access, root, sibling, owning) == Valid
    requires TargetStatus(w, k, c, access, sibling, owning) == Valid
    requires StaleSweep.GateIds(k.sweep, Target(w, k, access), k.runtime) == []
    ensures Diagnose(w, k) == Valid && Owning(w, k) == Some(owning)
  {
  }

  /** A disk with finitely many paths, one of which is a file that links to another. */
  datatype Disk = Disk(paths: set<Path>, link: Path, to: Path) {
    function Canonical(p: Path): Option<Path> {
      if p == link then Some(to) else if p in paths then Some(p) else None
    }

    /** Every path has its directory, the link leads to another path, and nothing lies below it. */
    ghost predicate Valid() {
      && (forall p | p in paths :: p != [] ==> Dirname(p) in paths)
      && link in paths && to in paths && to != link
      && (forall p | p in paths :: link <= p ==> p == link)
    }
  }

  /** What a process working in `cwd` sees of such a disk; a directory has a `.git` if that path exists. */
  function Seen(d: Disk, cwd: Path): World {
    World((p: Path) => p in d.paths, (p: Path) => d.Canonical(p), (p: Path) => p + [".git"] in d.paths, cwd,
          (s: string) => [s])
  }

  lemma {:induction false} PrefixesExist(d: Disk, p: Path, n: nat)
    requires d.Valid() && p in d.paths && n <= |p|
    ensures p[..n] in d.paths
  {
    if n == |p| {
      assert p[..n] == p;
    } else {
      PrefixesExist(d, Dirname(p), n);
      assert Dirname(p)[..n] == p[..n];
    }
  }

  lemma DiskResolves(d: Disk, cwd: Path)
    requires d.Valid()
    ensures RealpathResolves(Seen(d, cwd))
  {
    var w := Seen(d, cwd);
    forall p: Path, n | w.canonical(p).Some? && 0 <= n <= |w.canonical(p).value|
      ensures w.canonical(w.canonical(p).value[..n]) == Some(w.canonical(p).value[..n])
    {
      var c := w.canonical(p).value;
      PrefixesExist(d, c, n);
      assert c[..n] <= c;
    }
  }

  const LINK: Path := ["repo", "app.accdb"]
  const LINKED_TO: Path := ["shared", "app.accdb"]

  /** A project at /repo whose frontend is a link to /shared/app.accdb, which no worktree encloses. */
  const LINKED_DISK: Disk := Disk(
    {[], ["repo"], ["repo", ".git"], ["repo", ".dysflow"], ["repo", ".dysflow", "project.json"], ["repo", "src"],
     LINK, ["shared"], LINKED_TO},
    LINK, LINKED_TO)

  function LinkedWorld(): World { Seen(LINKED_DISK, ["repo"]) }

  lemma LinkedDiskIsValid()
    ensures LINKED_DISK.Valid()
  {
    assert ["repo", ".git"][..1] == ["repo"] && ["repo", ".dysflow"][..1] == ["repo"];
    assert ["repo", ".dysflow", "project.json"][..2] == ["repo", ".dysflow"];
    assert ["repo", "src"][..1] == ["repo"] && LINK[..1] == ["repo"] && LINKED_TO[..1] == ["shared"];
    assert ["repo"][..0] == [] && ["shared"][..0] == [];
    assert LINKED_TO[0] != LINK[0];
    assert ["repo", ".dysflow", "project.json"][1] != LINK[1];
  }

  lemma LinkedGit()
    ensures LinkedWorld().hasGit(["repo"]) && !LinkedWorld().hasGit(["repo", "src"])
    ensures !LinkedWorld().hasGit(["shared"]) && !LinkedWorld().hasGit([])
  {
    assert ["repo"] + [".git"] == ["repo", ".git"];
    var src, shared, top: Path := ["repo", "src"] + [".git"], ["shared"] + [".git"], [] + [".git"];
    assert src !in LINKED_DISK.paths by { assert |src| == 3 && |src[1]| == 3; }
    assert shared !in LINKED_DISK.paths by { assert |shared| == 2 && |shared[0]| == 6 && |shared[1]| == 4; }
    assert top !in LINKED_DISK.paths by {
      assert |top| == 1 && top[0][0] == '.' && "repo"[0] == 'r' && "shared"[0] == 's';
    }
  }

  const QUIET: StaleSweep.Runtime := StaleSweep.Runtime(StaleSweep.Missing, [], map[], {}, true)

  const SWEEP: StaleSweep.Sweep := StaleSweep.Sweep(0, 0, (s: string) => None, "")

  const PLAIN_REQUEST: Request :=
    Request(None, false, None, None, None, None, None, None, None, None, false, false, false, false)

  lemma QuietOpens(t: StaleSweep.Target)
    ensures StaleSweep.GateIds(SWEEP, t, QUIET) == []
  {
  }

  const LINKED_CONFIG: Config := Config(Some("id"), None, Some(Raw(false, ["app.accdb"])), None, None, None, false)

  const LINKED_CASE: Case := Case(
    ["repo"], false, Some(LINKED_CONFIG), [], PLAIN_REQUEST, QUIET, SWEEP)

  lemma PlainNames()
    ensures !StartsWithDots("app.accdb") && !StartsWithDots("src") && !StartsWithDots(".dysflow")
  {
    assert "app.accdb"[..2][0] == 'a' && "src"[..2][0] == 's' && ".dysflow"[..2][1] == 'd';
  }

  lemma LinkedSelection()
    ensures SelectionStatus(LinkedWorld(), LINKED_CASE, ["repo"]) == Valid
    ensures FrontendStatus(LINKED_CASE, LINKED_CONFIG) == Valid && AccessPath(LINKED_CASE, LINKED_CONFIG) == LINK
  {
    PlainNames();
    var config, legacy: Path := ["repo"] + [".dysflow", "project.json"], ["repo"] + ["dysflow.project.json"];
    assert LinkedWorld().onDisk(config) by { assert config == ["repo", ".dysflow", "project.json"]; }
    assert !LinkedWorld().onDisk(legacy) by { assert legacy[0] == "repo" && |legacy[1]| == 20; }
    assert Dirname(config) == ["repo", ".dysflow"];
    assert LinkedWorld().canonical(["repo", ".dysflow"]) == Some(["repo", ".dysflow"]) by {
      assert LINK[1] == "app.accdb";
    }
    var parts := ["app.accdb"];
    assert parts[1..] == [];
    assert Walk(["repo"], parts) == Walk(["repo"] + ["app.accdb"], []) == LINK;
  }

  lemma LinkedDestination()
    ensures DestinationStatus(LinkedWorld(), LINKED_CASE, LINKED_CONFIG, LINK, ["repo"], None, ["repo"]) == Valid
  {
    PlainNames();
    LinkedGit();
    var src: Path := ["repo", "src"];
    assert DestinationRoot(LINKED_CASE, LINKED_CONFIG) == src && src[..1] == ["repo"];
    assert WorktreeRoot(LinkedWorld(), src) == Some(["repo"]);
    assert Within(src, ["repo"]) && Within(LINK, ["repo"]);
  }

  lemma LinkedTarget()
    ensures TargetStatus(LinkedWorld(), LINKED_CASE, LINKED_CONFIG, LINK, None, ["repo"]) == Valid
    ensures WorktreeRoot(LinkedWorld(), Dirname(LINKED_TO)) == None
  {
    LinkedGit();
    var shared: Path := ["shared"];
    assert Dirname(LINKED_TO) == shared && shared[..0] == [];
    assert WorktreeRoot(LinkedWorld(), shared) == None;
    assert Aliases(LINKED_CASE, LINKED_CONFIG) == [];
  }

  lemma LinkedHasNoSibling()
    ensures SiblingRoot(LinkedWorld(), LINKED_CASE, LINKED_CONFIG, LINK, ["repo"]) == None
    ensures LinkedWorld().canonical(["repo"]) == Some(["repo"]) && LinkedWorld().canonical(LINK) == Some(LINKED_TO)
  {
    assert |["repo"]| != |LINK|;
  }

  /** A frontend that links outside every worktree, judged valid by a process running at the project root. */
  lemma LinkedFrontendIsValid()
    ensures LINKED_DISK.Valid() && RealpathResolves(LinkedWorld()) && Diagnose(LinkedWorld(), LINKED_CASE) == Valid
    ensures FrontendStatus(LINKED_CASE, LINKED_CONFIG) == Valid
    ensures LinkedWorld().canonical(AccessPath(LINKED_CASE, LINKED_CONFIG)) == Some(LINKED_TO)
    ensures !OwnedBy(LinkedWorld(), LINKED_TO, ["repo"]) && Owning(LinkedWorld(), LINKED_CASE) == Some(["repo"])
  {
    LinkedSelection();
    LinkedDestination();
    LinkedTarget();
    LinkedHasNoSibling();
    QuietOpens(Target(LinkedWorld(), LINKED_CASE, LINK));
    AllStretchesPass(LinkedWorld(), LINKED_CASE, LINKED_CONFIG, LINK, ["repo"], None, ["repo"]);
    assert LINKED_TO[0] == "shared" && Dirname(LINKED_TO)[0] == "shared";
    LinkedDiskIsValid();
    DiskResolves(LINKED_DISK, ["repo"]);
  }

  /** The check on the destination, as it leaves a valid verdict. */
  lemma ValidDestinationCheck(w: World, k: Case)
    requires Diagnose(w, k) == Valid
    ensures k.parsed.Some? && Owning(w, k).Some? && w.canonical(k.root).Some?
    ensures var dest := EffectiveDestination(k, k.parsed.value);
            && w.onDisk(dest) && w.canonical(dest).Some?
            && (ExternalPlan(k.request) ==> w.canonical(dest).value == dest)
            && (!ExternalPlan(k.request) ==>
                  DestinationOwned(w, w.canonical(dest).value, Owning(w, k).value, w.canonical(k.root).value))
  {
  }

  /**
  The destination of a valid verdict that is not an unapplied external preview lies in the owning or in
  the project's worktree; with a `.git` in both, the nearest worktree around it is one of the two.
   */
  lemma ValidDestination(w: World, k: Case)
    requires Diagnose(w, k) == Valid
    ensures k.parsed.Some? && Owning(w, k).Some? && w.canonical(k.root).Some?
    ensures var dest := EffectiveDestination(k, k.parsed.value);
            && w.onDisk(dest) && w.canonical(dest).Some?
            && (ExternalPlan(k.request) ==> w.canonical(dest).value == dest)
            && var cd, owning, root := w.canonical(dest).value, Owning(w, k).value, w.canonical(k.root).value;
               !ExternalPlan(k.request) ==>
                 && (Within(cd, owning) || Within(cd, root))
                 && (w.hasGit(root) && w.hasGit(owning) ==>
                       WorktreeRoot(w, cd) == Some(owning) || WorktreeRoot(w, cd) == Some(root))
  {
    ValidDestinationCheck(w, k);
    var cd := w.canonical(EffectiveDestination(k, k.parsed.value)).value;
    if !ExternalPlan(k.request) && w.hasGit(w.canonical(k.root).value) && w.hasGit(Owning(w, k).value) {
      WorktreeRootIsNearest(w, cd);
      var d := LookedUp(w, cd);
      assert cd[..|d|] == d && w.hasGit(d);
    }
  }

  /** A recognised sibling is a worktree beside the project root, different from it, and its own canonical path. */
  lemma SiblingIsCanonical(w: World, k: Case)
    requires RealpathResolves(w) && Owning(w, k).Some?
    ensures Sibling(w, k).None? ==> Owning(w, k) == w.canonical(k.root)
    ensures Sibling(w, k).Some? ==>
      var s, root := Sibling(w, k).value, w.canonical(k.root).value;
      Owning(w, k) == Some(s) && w.hasGit(s) && s != root && Dirname(s) == Dirname(root)
  {
    if Sibling(w, k).Some? {
      var ca := w.canonical(AccessPath(k, k.parsed.value)).value;
      var s := Sibling(w, k).value;
      WorktreeRootIsNearest(w, Dirname(ca));
      assert s <= Dirname(ca) <= ca;
      assert LinkFree(w, ca) && ca[..|s|] == s;
    }
  }

  lemma SameLengthPrefixes(s: Path, root: Path, p: Path)
    requires s <= p && root <= p && |s| == |root|
    ensures s == root
  {
    assert s == p[..|s|];
  }

  lemma SiblingsShareNoPath(s: Path, root: Path, p: Path)
    requires s != root && Dirname(s) == Dirname(root) && s <= p && root <= p
    ensures s == [] || root == []
  {
    if |s| == |root| { SameLengthPrefixes(s, root, p); }
  }

  /**
  Exactly when the destination lies in the owning worktree: unless a sibling was recognised as the owner
  while the destination's nearest worktree is not that sibling (nor the sibling the file system's root).
   */
  lemma DestinationInOwningIff(w: World, k: Case)
    requires Diagnose(w, k) == Valid && RealpathResolves(w) && !ExternalPlan(k.request)
    ensures k.parsed.Some? && Owning(w, k).Some? && w.canonical(EffectiveDestination(k, k.parsed.value)).Some?
    ensures var cd, owning := w.canonical(EffectiveDestination(k, k.parsed.value)).value, Owning(w, k).value;
            owning <= cd <==> Sibling(w, k).None? || owning == [] || WorktreeRoot(w, cd) == Some(owning)
  {
    ValidDestinationCheck(w, k);
    SiblingIsCanonical(w, k);
    var cd, owning := w.canonical(EffectiveDestination(k, k.parsed.value)).value, Owning(w, k).value;
    var root, d := w.canonical(k.root).value, LookedUp(w, cd);
    WorktreeRootIsNearest(w, cd);
    if Sibling(w, k).Some? && owning != [] && owning <= cd {
      assert cd[..|owning|] == owning;
      if d == root { SiblingsShareNoPath(owning, root, cd); }
    }
  }

  const DOTTED_LINK: Path := ["repo", "..db"]
  const DOTTED_TO: Path := ["sib", "app.accdb"]

  /** Worktrees /repo and /sib side by side; the frontend /repo/..db is a link into the latter. */
  const DOTTED_DISK: Disk := Disk(
    {[], ["repo"], ["repo", ".git"], ["repo", ".dysflow"], ["repo", ".dysflow", "project.json"], ["repo", "src"],
     DOTTED_LINK, ["sib"], ["sib", ".git"], DOTTED_TO},
    DOTTED_LINK, DOTTED_TO)

  function DottedWorld(): World { Seen(DOTTED_DISK, []) }

  lemma DottedDiskIsValid()
    ensures DOTTED_DISK.Valid()
  {
    assert ["repo", ".git"][..1] == ["repo"] && ["repo", ".dysflow"][..1] == ["repo"];
    assert ["repo", ".dysflow", "project.json"][..2] == ["repo", ".dysflow"];
    assert ["repo", "src"][..1] == ["repo"] && DOTTED_LINK[..1] == ["repo"];
    assert DOTTED_TO[..1] == ["sib"] && ["sib", ".git"][..1] == ["sib"];
    assert ["repo"][..0] == [] && ["sib"][..0] == [];
    assert DOTTED_TO[0] != DOTTED_LINK[0];
    assert ["repo", ".dysflow", "project.json"][1] != DOTTED_LINK[1];
  }

  lemma DottedGit()
    ensures var w := DottedWorld(); w.hasGit(["repo"]) && w.hasGit(["sib"]) && !w.hasGit(["repo", "src"])
  {
    assert ["repo"] + [".git"] == ["repo", ".git"] && ["sib"] + [".git"] == ["sib", ".git"];
    var src: Path := ["repo", "src"] + [".git"];
    assert src !in DOTTED_DISK.paths by { assert |src| == 3 && |src[1]| == 3; }
  }

  const DOTTED_CONFIG: Config :=
    Config(Some("id"), None, Some(Raw(false, ["..db"])), Some(Raw(true, ["sib", "app.accdb"])), None, None, false)

  const DOTTED_CASE: Case := Case(["repo"], false, Some(DOTTED_CONFIG), [], PLAIN_REQUEST, QUIET, SWEEP)

  lemma DottedSelection()
    ensures SelectionStatus(DottedWorld(), DOTTED_CASE, ["repo"]) == Valid
    ensures FrontendStatus(DOTTED_CASE, DOTTED_CONFIG) == Valid && AccessPath(DOTTED_CASE, DOTTED_CONFIG) == DOTTED_LINK
  {
    PlainNames();
    var config, legacy: Path := ["repo"] + [".dysflow", "project.json"], ["repo"] + ["dysflow.project.json"];
    assert DottedWorld().onDisk(config) by { assert config == ["repo", ".dysflow", "project.json"]; }
    assert !DottedWorld().onDisk(legacy) by { assert legacy[0] == "repo" && |legacy[1]| == 20; }
    assert Dirname(config) == ["repo", ".dysflow"];
    assert DottedWorld().canonical(["repo", ".dysflow"]) == Some(["repo", ".dysflow"]) by {
      assert DOTTED_LINK[1] == "..db";
    }
    var parts := ["..db"];
    assert parts[1..] == [] && "..db" != ".." && "..db" != ".";
    assert Walk(["repo"], parts) == Walk(["repo"] + ["..db"], []) == DOTTED_LINK;
  }

  lemma DottedSibling()
    ensures SiblingRoot(DottedWorld(), DOTTED_CASE, DOTTED_CONFIG, DOTTED_LINK, ["repo"]) == Some(["sib"])
  {
    DottedPaths();
    assert Dirname(["sib"]) == [] == Dirname(["repo"]);
  }

  lemma DottedPaths()
    ensures Resolve(["repo"], Raw(true, ["sib", "app.accdb"])) == DOTTED_TO
    ensures WorktreeRoot(DottedWorld(), Dirname(DOTTED_TO)) == Some(["sib"])
    ensures !Within(DOTTED_LINK, ["repo"]) && DottedWorld().canonical(DOTTED_LINK) == Some(DOTTED_TO)
  {
    DottedGit();
    var parts, last := ["sib", "app.accdb"], ["app.accdb"];
    assert parts[1..] == last && last[1..] == [];
    assert Walk([], parts) == Walk(["sib"], last);
    assert Walk(["sib"], last) == Walk(DOTTED_TO, []);
    assert Dirname(DOTTED_TO) == ["sib"];
    assert "..db"[..2] == "..";
  }

  lemma DottedDestination()
    ensures Valid ==
            DestinationStatus(DottedWorld(), DOTTED_CASE, DOTTED_CONFIG, DOTTED_LINK, ["repo"], Some(["sib"]), ["sib"])
    ensures EffectiveDestination(DOTTED_CASE, DOTTED_CONFIG) == ["repo", "src"]
    ensures DottedWorld().canonical(["repo", "src"]) == Some(["repo", "src"])
  {
    PlainNames();
    DottedGit();
    var w, src: Path := DottedWorld(), ["repo", "src"];
    assert src[..1] == ["repo"] && WorktreeRoot(w, src) == Some(["repo"]);
    assert Within(src, ["repo"]);
    assert w.canonical(src) == Some(src) by { assert DOTTED_LINK[1] == "..db" && src[1] == "src"; }
    assert w.onDisk(src) by { assert src[1] == "src"; }
    assert DestinationRoot(DOTTED_CASE, DOTTED_CONFIG) == src;
  }

  lemma DottedTarget()
    ensures TargetStatus(DottedWorld(), DOTTED_CASE, DOTTED_CONFIG, DOTTED_LINK, Some(["sib"]), ["sib"]) == Valid
  {
    DottedPaths();
    assert DottedWorld().onDisk(DOTTED_LINK) by { assert DOTTED_LINK[1] == "..db"; }
    assert Aliases(DOTTED_CASE, DOTTED_CONFIG) == [];
  }

  lemma DottedRoots()
    ensures DottedWorld().canonical(["repo"]) == Some(["repo"]) && DottedWorld().canonical(["sib"]) == Some(["sib"])
  {
    assert |["repo"]| != |DOTTED_LINK| && |["sib"]| != |DOTTED_LINK|;
  }

  /** A valid verdict whose owner is the sibling while the destination lies in the project's own worktree. */
  lemma DestinationOutsideOwner()
    ensures DOTTED_DISK.Valid() && RealpathResolves(DottedWorld())
    ensures Diagnose(DottedWorld(), DOTTED_CASE) == Valid && !ExternalPlan(DOTTED_CASE.request)
    ensures Owning(DottedWorld(), DOTTED_CASE) == Some(["sib"])
    ensures DottedWorld().canonical(EffectiveDestination(DOTTED_CASE, DOTTED_CONFIG)) == Some(["repo", "src"])
    ensures !Within(["repo", "src"], ["sib"])
  {
    DottedSelection();
    DottedSibling();
    DottedDestination();
    DottedTarget();
    DottedRoots();
    QuietOpens(Target(DottedWorld(), DOTTED_CASE, DOTTED_LINK));
    AllStretchesPass(DottedWorld(), DOTTED_CASE, DOTTED_CONFIG, DOTTED_LINK, ["repo"], Some(["sib"]), ["sib"]);
    assert ["repo", "src"][0] == "repo" && DOTTED_TO[0] == "sib";
    DottedDiskIsValid();
    DiskResolves(DOTTED_DISK, []);
  }

  /**
  All frontend aliases of the request name one path; unless the non-mutating external-read flag applies,
  its canonical file is the configured frontend or backend.
   */
  lemma ValidTargets(w: World, k: Case, a: Raw, b: Raw)
    requires Diagnose(w, k) == Valid
    requires k.parsed.Some? && a in Aliases(k, k.parsed.value) && b in Aliases(k, k.parsed.value)
    ensures FrontendStatus(k, k.parsed.value) == Valid
    ensures Resolve(k.root, a) == Resolve(k.root, b)
    ensures !ExternalRead(k.request) ==>
      var ct := w.canonical(Resolve(k.root, a));
      && ct.Some?
      && (ct == w.canonical(AccessPath(k, k.parsed.value))
          || (BackendPath(k, k.parsed.value).Some? && ct == w.canonical(BackendPath(k, k.parsed.value).value)))
  {
    var c := k.parsed.value;
    var ts := Targets(k, c);
    var first := Aliases(k, c)[0];
    assert first in Aliases(k, c);
    assert Resolve(k.root, a) in ts && Resolve(k.root, b) in ts && Resolve(k.root, first) in ts;
    AtMostOneElement(ts, Resolve(k.root, a), Resolve(k.root, b));
    AtMostOneElement(ts, Resolve(k.root, a), Resolve(k.root, first));
  }

  lemma AtMostOneElement(s: set<Path>, x: Path, y: Path)
    requires |s| <= 1 && x in s && y in s
    ensures x == y
  {
    assert |s - {x}| == |s| - 1;
    assert s - {x} == {};
  }

  /** A frontend whose name does not begin with two dots never makes a sibling the owner. */
  lemma OwnerIsProjectRoot(w: World, k: Case)
    requires Diagnose(w, k) == Valid && k.parsed.Some?
    requires var f := Frontend(k.parsed.value);
             if f.Some? then !StartsWithDots(f.value.parts[0]) else !StartsWithDots(k.local[0])
    ensures Owning(w, k) == w.canonical(k.root)
    ensures !ExternalPlan(k.request) ==>
      Within(w.canonical(EffectiveDestination(k, k.parsed.value)).value, w.canonical(k.root).value)
  {
    var f := Frontend(k.parsed.value);
    var name := if f.Some? then f.value.parts[0] else k.local[0];
    var parts := if f.Some? then f.value.parts else [k.local[0]];
    assert parts == [name];
    assert AccessPath(k, k.parsed.value) == Walk(k.root, parts);
    PlainNameStaysWithin(k.root, name);
  }

  lemma PlainNameStaysWithin(root: Path, name: string)
    requires !StartsWithDots(name)
    ensures Within(Walk(root, [name]), root)
  {
    assert [name][1..] == [];
    assert name != "..";
    assert Walk(root, [name]) == (if name == "" || name == "." then root else root + [name]);
  }
}
