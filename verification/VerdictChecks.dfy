/**
The verdict as the sequence of checks with early returns that computes it, and what it means in terms of
the request's own fields, the config's own fields and the disk: for a valid verdict, for a project that
has nothing unusual about it, and for the paths the checks compare.
 */
module VerdictChecks {
  import opened Wrappers
  import opened ProjectVerdict
  import opened Json
  import StaleSweep

  // ----- The checks, one after the other -----

  method GivenPath(root: Path, value: Option<Raw>) returns (path: Option<Path>)
    ensures path == if Truthy(value).Some? then Some(Resolve(root, value.value)) else None
  {
    if value.None? { return None; }
    if !value.value.absolute && |value.value.parts| == 0 { return None; }
    return Some(Resolve(root, value.value));
  }

  method SelectConfig(w: World, k: Case, canonicalRoot: Path) returns (status: Status)
    ensures status == SelectionStatus(w, k, canonicalRoot)
  {
    var config, legacy := k.root + [".dysflow", "project.json"], k.root + ["dysflow.project.json"];
    var present: seq<Path> := [];
    if k.candidateSupplied || w.onDisk(config) { present := present + [config]; }
    if w.onDisk(legacy) { present := present + [legacy]; }
    if |present| == 0 { return Absent; }
    if |present| > 1 { return Ambiguous; }
    var directory := w.canonical(present[0][..|present[0]| - 1]);
    if directory.None? { return OutsideProjectRoot; }
    if !Within(directory.value, canonicalRoot) { return OutsideProjectRoot; }
    if k.parsed.None? { return Ambiguous; }
    return Valid;
  }

  method NameFrontend(k: Case, c: Config) returns (status: Status, access: Option<Path>)
    ensures status == FrontendStatus(k, c)
    ensures status == Valid ==> access == Some(AccessPath(k, c))
  {
    access := None;
    var configured: Option<Raw> := None;
    if c.frontendFile.Some? && (c.frontendFile.value.absolute || |c.frontendFile.value.parts| > 0) {
      configured := c.frontendFile;
    } else if c.accessPath.Some? && (c.accessPath.value.absolute || |c.accessPath.value.parts| > 0) {
      configured := c.accessPath;
    }
    if configured.Some? && (configured.value.absolute || |configured.value.parts| != 1) {
      status := PathMismatch;
      return;
    }
    if configured.None? && |k.local| == 0 {
      status := InvalidSchema;
      return;
    }
    if configured.None? && |k.local| > 1 {
      status := Ambiguous;
      return;
    }
    status := Valid;
    access := Some(Resolve(k.root, if configured.Some? then configured.value else Raw(false, [k.local[0]])));
  }

  method FindSibling(w: World, k: Case, c: Config, access: Path, canonicalRoot: Path) returns (sibling: Option<Path>)
    ensures sibling == SiblingRoot(w, k, c, access, canonicalRoot)
  {
    if c.accessPath.None? { return None; }
    if Within(access, k.root) { return None; }
    var canonicalAccess := w.canonical(access);
    if canonicalAccess.None? { return None; }
    if Resolve(k.root, c.accessPath.value) != canonicalAccess.value { return None; }
    var found := FindWorktreeRoot(w, Dirname(canonicalAccess.value));
    if found.None? { return None; }
    if Dirname(canonicalRoot) != Dirname(found.value) { return None; }
    if found.value == canonicalRoot { return None; }
    return found;
  }

  method OwnerOf(w: World, p: Path) returns (root: Path)
    ensures root == LookedUp(w, p)
  {
    var found := FindWorktreeRoot(w, p);
    root := if found.Some? then found.value else w.cwd;
  }

  method CheckIdentity(k: Case, c: Config) returns (status: Status)
    ensures status == if k.request.projectId.Some? && k.request.projectId != ProjectId(c) then IdMismatch
                      else if c.allowWritesIsFalse && !OrphanRetire(k.request) then CapabilitiesDisallowWrite
                      else Valid
  {
    var r := k.request;
    var projectId: Option<string> := None;
    if c.id.Some? && |c.id.value| > 0 { projectId := c.id; }
    else if c.legacyProjectId.Some? && |c.legacyProjectId.value| > 0 { projectId := c.legacyProjectId; }
    if r.projectId.Some? && r.projectId != projectId { return IdMismatch; }
    var retires := r.operation == Some("access_force_cleanup_orphaned") && r.numericPid;
    if c.allowWritesIsFalse && !retires { return CapabilitiesDisallowWrite; }
    return Valid;
  }

  method AcceptDestination(k: Case, c: Config, configured: Path, external: bool) returns (accepted: bool)
    requires k.request.destinationRoot.Some? && configured == DestinationRoot(k, c)
    requires external == ExternalPlan(k.request)
    ensures accepted == DestinationAccepted(k, c)
  {
    var requested := Resolve(k.root, k.request.destinationRoot.value);
    var legacy := c.accessPath.Some? && (c.accessPath.value.absolute || |c.accessPath.value.parts| > 1);
    accepted := requested == configured || (Within(requested, k.root) && !legacy) || external;
  }

  method OwnDestination(w: World, destination: Path, owning: Path, canonicalRoot: Path) returns (owned: bool)
    ensures owned == DestinationOwned(w, destination, owning, canonicalRoot)
  {
    var owner := OwnerOf(w, destination);
    if owner != owning && owner != canonicalRoot { return false; }
    return Within(destination, owner);
  }

  method CheckDestination(
      w: World, k: Case, c: Config, access: Path, canonicalRoot: Path, sibling: Option<Path>, owning: Path)
    returns (status: Status)
    ensures status == DestinationStatus(w, k, c, access, canonicalRoot, sibling, owning)
  {
    var r := k.request;
    status := CheckIdentity(k, c);
    if status != Valid { return; }
    var given := GivenPath(k.root, c.destinationRoot);
    var configured := if given.Some? then given.value else k.root + ["src"];
    var override := GivenPath(k.root, r.destinationRoot);
    var effective := if override.Some? then override.value else configured;
    var external := r.operation == Some("export_modules") && r.allowExternalDestinationRoot && r.applyIsFalse;
    if sibling.None? && (!Within(access, k.root) || !Within(configured, k.root)) { return PathMismatch; }
    if r.destinationRoot.Some? {
      var accepted := AcceptDestination(k, c, configured, external);
      if !accepted { return OutsideProjectRoot; }
    }
    status := CheckOnDisk(w, k, effective, external, canonicalRoot, owning);
  }

  method CheckOnDisk(w: World, k: Case, effective: Path, external: bool, canonicalRoot: Path, owning: Path)
    returns (status: Status)
    requires external == ExternalPlan(k.request)
    ensures status == OnDiskStatus(w, k, effective, canonicalRoot, owning)
  {
    if !w.onDisk(effective) { return DestinationRootNotFound; }
    var canonical := w.canonical(effective);
    if canonical.None? { return OutsideProjectRoot; }
    if external {
      if canonical.value != effective { return OutsideProjectRoot; }
    } else {
      var owned := OwnDestination(w, canonical.value, owning, canonicalRoot);
      if !owned { return OutsideProjectRoot; }
    }
    if k.request.projectRoot.Some? {
      var requestedRoot := w.canonical(Resolve(k.root, k.request.projectRoot.value));
      if requestedRoot != Some(canonicalRoot) { return OutsideProjectRoot; }
    }
    return Valid;
  }

  /** The values among the request's fields that name the frontend, in the order in which they are read. */
  method CollectAliases(k: Case, backend: Option<Path>) returns (aliases: seq<Raw>)
    requires k.parsed.Some? && backend == BackendPath(k, k.parsed.value)
    ensures aliases == Aliases(k, k.parsed.value)
  {
    var r := k.request;
    aliases := [];
    if r.accessPath.Some? { aliases := aliases + [r.accessPath.value]; }
    if r.accessDbPath.Some? { aliases := aliases + [r.accessDbPath.value]; }
    assert aliases == Present(r.accessPath) + Present(r.accessDbPath);
    var databaseIsBackend := NamesBackend(k, backend, r.databasePath);
    if r.databasePath.Some? && !databaseIsBackend { aliases := aliases + [r.databasePath.value]; }
    var form := IsFormOperation(r.operation);
    var sourceIsBackend := NamesBackend(k, backend, r.sourcePath);
    if r.sourcePath.Some? && !form && !sourceIsBackend { aliases := aliases + [r.sourcePath.value]; }
  }

  method NamesBackend(k: Case, backend: Option<Path>, value: Option<Raw>) returns (yes: bool)
    requires k.parsed.Some? && backend == BackendPath(k, k.parsed.value)
    ensures yes == NamesBackendDatabase(k, k.parsed.value, value)
  {
    var sql := k.request.operation == Some("query_execute") || k.request.operation == Some("query_sql");
    yes := sql && value.Some? && backend == Some(Resolve(k.root, value.value));
  }

  method IsFormOperation(operation: Option<string>) returns (yes: bool)
    ensures yes == (operation.Some? && FormOperation(operation.value))
  {
    if operation.None? { return false; }
    var op := operation.value;
    return (|op| >= 5 && op[..5] == "form_") || op == "apply_form_design_plan" || op == "create_form_from_template";
  }

  /** Whether the values name one path: the first one decides. */
  method AllTheSame(root: Path, aliases: seq<Raw>) returns (same: bool)
    ensures same <==> |set a | a in aliases :: Resolve(root, a)| <= 1
  {
    ghost var paths := set a | a in aliases :: Resolve(root, a);
    var i := 0;
    while i < |aliases|
      invariant 0 <= i <= |aliases|
      invariant forall j | 0 <= j < i :: Resolve(root, aliases[j]) == Resolve(root, aliases[0])
    {
      if Resolve(root, aliases[i]) != Resolve(root, aliases[0]) {
        assert aliases[0] in aliases && aliases[i] in aliases;
        if |paths| <= 1 { AtMostOneElement(paths, Resolve(root, aliases[0]), Resolve(root, aliases[i])); }
        return false;
      }
      i := i + 1;
    }
    if aliases == [] {
      assert paths == {};
    } else {
      forall p | p in paths ensures p == Resolve(root, aliases[0]) {
        var a :| a in aliases && p == Resolve(root, a);
        var j :| 0 <= j < |aliases| && aliases[j] == a;
      }
      assert aliases[0] in aliases;
      assert paths == {Resolve(root, aliases[0])};
    }
    return true;
  }

  method CheckTargets(w: World, k: Case, access: Path, sibling: Option<Path>, owning: Path) returns (status: Status)
    requires k.parsed.Some?
    ensures status == TargetStatus(w, k, k.parsed.value, access, sibling, owning)
  {
    var r, c := k.request, k.parsed.value;
    var backend := GivenPath(k.root, c.backendPath);
    var aliases := CollectAliases(k, backend);
    var same := AllTheSame(k.root, aliases);
    if !same { return Ambiguous; }
    if !w.onDisk(access) { return TargetNotFound; }
    var canonicalAccess := w.canonical(access);
    if canonicalAccess.None? { return OutsideProjectRoot; }
    var owner := OwnerOf(w, Dirname(canonicalAccess.value));
    if owner != owning { return OutsideProjectRoot; }
    if backend.Some? && w.canonical(backend.value).None? { return TargetNotFound; }
    if r.backendPath.Some? && backend.Some? && Resolve(k.root, r.backendPath.value) != backend.value {
      return OutsideProjectRoot;
    }
    var requested: Option<Raw> := if |aliases| > 0 then Some(aliases[0]) else r.backendPath;
    if requested.None? { return Valid; }
    status := CheckRequested(w, k, Resolve(k.root, requested.value), canonicalAccess.value, sibling, owning);
  }

  method CheckRequested(w: World, k: Case, target: Path, ca: Path, sibling: Option<Path>, owning: Path)
    returns (status: Status)
    requires k.parsed.Some?
    ensures status == RequestedStatus(w, k, k.parsed.value, target, ca, sibling, owning)
  {
    var backend := GivenPath(k.root, k.parsed.value.backendPath);
    var external := k.request.allowExternalAccessPath && k.request.mutatesBinaryIsFalse;
    var ownershipRoot := if sibling.Some? then sibling.value else k.root;
    var outside := !Within(target, ownershipRoot);
    if !w.onDisk(target) && outside && backend != Some(target) && !external { return OutsideProjectRoot; }
    var canonicalTarget := w.canonical(target);
    if canonicalTarget.None? { return TargetNotFound; }
    var isBackend := backend.Some? && w.canonical(backend.value) == canonicalTarget;
    if isBackend || external { return Valid; }
    if outside { return OutsideProjectRoot; }
    var owner := OwnerOf(w, Dirname(canonicalTarget.value));
    if owner != owning || canonicalTarget.value != ca { return OutsideProjectRoot; }
    return Valid;
  }

  /** The whole chain of checks computes the verdict. */
  method DiagnoseProjectConfig(w: World, k: Case) returns (status: Status)
    ensures status == Diagnose(w, k)
  {
    var canonicalRoot := w.canonical(k.root);
    if canonicalRoot.None? { return Threw; }
    status := SelectConfig(w, k, canonicalRoot.value);
    if status != Valid { return; }
    var c, access := k.parsed.value, None;
    status, access := NameFrontend(k, c);
    if status != Valid { return; }
    var sibling := FindSibling(w, k, c, access.value, canonicalRoot.value);
    var owning := canonicalRoot.value;
    if sibling.Some? {
      var canonicalSibling := w.canonical(sibling.value);
      if canonicalSibling.None? { return Threw; }
      owning := canonicalSibling.value;
    }
    status := CheckDestination(w, k, c, access.value, canonicalRoot.value, sibling, owning);
    if status != Valid { return; }
    status := CheckTargets(w, k, access.value, sibling, owning);
    if status != Valid { return; }
    var blocking := StaleSweep.GateIds(k.sweep, Target(w, k, access.value), k.runtime);
    if |blocking| > 0 { return WriteLockedByRunningOp; }
    return Valid;
  }

  // ----- Paths -----

  lemma {:induction false} WalkInTwo(base: Path, a: seq<string>, b: seq<string>)
    ensures Walk(base, a + b) == Walk(Walk(base, a), b)
    decreases |a|
  {
    if a == [] {
      assert a + b == b;
    } else {
      assert (a + b)[0] == a[0] && (a + b)[1..] == a[1..] + b;
      var next := if a[0] == "" || a[0] == "." then base
                  else if a[0] == ".." then Dirname(base) else base + [a[0]];
      WalkInTwo(next, a[1..], b);
    }
  }

  /** Each name of a path leads one level down, `..` one up, and `.` nowhere; an absolute path starts at the top. */
  lemma WalkOneName(base: Path, name: string)
    ensures Walk(base, [name]) ==
            if name == "" || name == "." then base else if name == ".." then Dirname(base) else base + [name]
    ensures Resolve(base, Raw(true, [name])) == Walk([], [name])
    ensures Resolve(base, Raw(false, [name])) == Walk(base, [name])
  {
    assert [name][1..] == [];
  }

  /** What lies within a root begins with it; everything below it does, except under a name with two leading dots. */
  lemma WithinMeans(root: Path, below: Path)
    ensures Within(root, root)
    ensures Within(below, root) ==> root <= below
    ensures below != [] && !(|below[0]| >= 2 && below[0][0] == '.' && below[0][1] == '.') ==> Within(root + below, root)
    ensures below != [] && |below[0]| >= 2 && below[0][0] == '.' && below[0][1] == '.' ==> !Within(root + below, root)
  {
    if below != [] {
      assert (root + below)[|root|] == below[0];
      if |below[0]| >= 2 { assert below[0][..2] == [below[0][0], below[0][1]]; }
    }
  }

  // ----- What a valid verdict means for the request -----

  /** The four fields that can name the frontend, absent where they name something else. */
  function FrontendFields(k: Case, c: Config): seq<Option<Raw>> {
    var r := k.request;
    var backend: Option<Path> :=
      if c.backendPath.Some? && (c.backendPath.value.absolute || c.backendPath.value.parts != [])
      then Some(Resolve(k.root, c.backendPath.value)) else None;
    var sql := r.operation == Some("query_execute") || r.operation == Some("query_sql");
    var form := r.operation.Some? && (|| (|r.operation.value| >= 5 && r.operation.value[..5] == "form_")
                                      || r.operation.value == "apply_form_design_plan"
                                      || r.operation.value == "create_form_from_template");
    [r.accessPath, r.accessDbPath,
     if sql && r.databasePath.Some? && backend == Some(Resolve(k.root, r.databasePath.value)) then None
     else r.databasePath,
     if form || (sql && r.sourcePath.Some? && backend == Some(Resolve(k.root, r.sourcePath.value))) then None
     else r.sourcePath]
  }

  lemma FieldsAreAliases(k: Case, c: Config, i: nat)
    requires i < 4 && FrontendFields(k, c)[i].Some?
    ensures FrontendFields(k, c)[i].value in Aliases(k, c)
  {
  }

  lemma NoFieldNoAlias(k: Case, c: Config)
    requires FrontendFields(k, c) == [None, None, None, None]
    ensures Aliases(k, c) == []
  {
    var fields := FrontendFields(k, c);
    assert fields[0] == None && fields[1] == None && fields[2] == None && fields[3] == None;
  }

  /** The value names the configured frontend or backend, through whatever links. */
  predicate NamesConfigured(w: World, k: Case, c: Config, value: Raw)
    requires FrontendStatus(k, c) == Valid
  {
    var file := w.canonical(Resolve(k.root, value));
    && file.Some?
    && (file == w.canonical(AccessPath(k, c))
        || (BackendPath(k, c).Some? && file == w.canonical(BackendPath(k, c).value)))
  }

  /**
  A valid verdict means that whichever of the four frontend fields are given, all resolve to one path, and
  that each of them, or a backend given alone, names the configured frontend or backend, unless the binary
  is only read and the caller allowed that to be a foreign one.
   */
  lemma ValidFields(w: World, k: Case, i: nat, j: nat)
    requires Diagnose(w, k) == Valid && i < 4 && j < 4
    ensures k.parsed.Some? && FrontendStatus(k, k.parsed.value) == Valid
    ensures var fields, external := FrontendFields(k, k.parsed.value),
                                    k.request.allowExternalAccessPath && k.request.mutatesBinaryIsFalse;
            && (fields[i].Some? && fields[j].Some? ==>
                  Resolve(k.root, fields[i].value) == Resolve(k.root, fields[j].value))
            && (fields[i].Some? && !external ==> NamesConfigured(w, k, k.parsed.value, fields[i].value))
            && (fields == [None, None, None, None] && k.request.backendPath.Some? && !external ==>
                  NamesConfigured(w, k, k.parsed.value, k.request.backendPath.value))
  {
    ValidReaches(w, k);
    var c := k.parsed.value;
    var fields := FrontendFields(k, c);
    if fields[i].Some? {
      FieldsAreAliases(k, c, i);
      ValidTargets(w, k, fields[i].value, fields[i].value);
      if fields[j].Some? {
        FieldsAreAliases(k, c, j);
        ValidTargets(w, k, fields[i].value, fields[j].value);
      }
    }
    if fields == [None, None, None, None] { NoFieldNoAlias(k, c); }
  }

  /**
  A valid verdict also means: exactly one config file is there, in a directory of the project root; the
  frontend is named by one plain name or is the only one there is, and exists; a requested project root is
  this one; a requested destination is the configured one or lies under the root, unless it is only planned.
   */
  lemma ValidSetting(w: World, k: Case)
    requires Diagnose(w, k) == Valid
    ensures k.parsed.Some? && w.canonical(k.root).Some? && FrontendStatus(k, k.parsed.value) == Valid
    ensures var config, legacy := k.root + [".dysflow", "project.json"], k.root + ["dysflow.project.json"];
            && (w.onDisk(legacy) <==> !(k.candidateSupplied || w.onDisk(config)))
            && var dir := w.canonical(if w.onDisk(legacy) then k.root else k.root + [".dysflow"]);
               dir.Some? && w.canonical(k.root).value <= dir.value
    ensures var c := k.parsed.value;
            && w.onDisk(AccessPath(k, c))
            && (BackendPath(k, c).Some? ==> w.canonical(BackendPath(k, c).value).Some?)
            && (Frontend(c).Some? ==> !Frontend(c).value.absolute && |Frontend(c).value.parts| == 1)
            && (Frontend(c).None? ==> |k.local| == 1 && AccessPath(k, c) == Walk(k.root, [k.local[0]]))
    ensures k.request.projectRoot.Some? ==>
      w.canonical(Resolve(k.root, k.request.projectRoot.value)) == w.canonical(k.root)
    ensures k.request.destinationRoot.Some? ==>
      var requested := Resolve(k.root, k.request.destinationRoot.value);
      || requested == DestinationRoot(k, k.parsed.value)
      || k.root <= requested
      || (k.request.operation == Some("export_modules") && k.request.allowExternalDestinationRoot
          && k.request.applyIsFalse)
  {
    ValidReaches(w, k);
    var config, legacy := k.root + [".dysflow", "project.json"], k.root + ["dysflow.project.json"];
    assert Dirname(config) == k.root + [".dysflow"] && Dirname(legacy) == k.root;
    assert SelectionStatus(w, k, w.canonical(k.root).value) == Valid;
  }

  // ----- Which operations collide -----

  /** A running operation whose recorded root and frontend, where recorded, are those of this project. */
  predicate RunsHere(w: World, k: Case, access: Path, m: Fields) {
    && "status" in m && m["status"] == JStr("running")
    && ("projectRootAbs" in m && m["projectRootAbs"].JStr? ==> w.named(m["projectRootAbs"].s) == k.root)
    && ("accessPath" in m && m["accessPath"].JStr? ==> w.named(m["accessPath"].s) == access)
  }

  /** A record collides with the write exactly when it, or the marker it nests, is of an operation running here. */
  lemma CollidesIff(w: World, k: Case, access: Path, m: Fields)
    ensures StaleSweep.Blocks(Target(w, k, access), JObj(m)) <==>
            RunsHere(w, k, access, if "marker" in m && m["marker"].JObj? then m["marker"].fields else m)
  {
  }

  /** A registry entry of an operation running here that looks alive refuses the write, whatever else holds. */
  lemma LiveOperationRefuses(w: World, k: Case, i: nat, m: Fields)
    requires k.parsed.Some? && FrontendStatus(k, k.parsed.value) == Valid
    requires StaleSweep.RegistryHolds(k.runtime.registry, i, JObj(m)) && "marker" !in m
    requires StaleSweep.LooksAlive(k.sweep, m) && RunsHere(w, k, AccessPath(k, k.parsed.value), m)
    ensures Diagnose(w, k) != Valid
  {
    var t := Target(w, k, AccessPath(k, k.parsed.value));
    StaleSweep.LiveEntryKeepsGateClosed(k.sweep, t, k.runtime, i, m);
  }

  /** Operations of other roots and frontends, however many and however young, leave the gate open. */
  lemma ForeignOperationsDoNotRefuse(w: World, k: Case, access: Path)
    requires forall j | j in StaleSweep.RegistryRecords(k.runtime.registry) && j.JObj? ::
               !RunsHere(w, k, access, StaleSweep.MarkerOf(j.fields))
    requires forall n | StaleSweep.IsListed(k.runtime.names, k.runtime.markers, n) && k.runtime.markers[n].j.JObj? ::
               !RunsHere(w, k, access, StaleSweep.MarkerOf(k.runtime.markers[n].j.fields))
    ensures StaleSweep.GateIds(k.sweep, Target(w, k, access), k.runtime) == []
  {
    StaleSweep.GateOpensIff(k.sweep, Target(w, k, access), k.runtime);
  }

  // ----- A project with nothing unusual is valid -----

  /**
  A project at a worktree root, without links, with its config, its frontend under a plain name and its
  `src` directory in place, whose writes are allowed and which no operation blocks, is valid for a request
  that says nothing else, or names that id and that frontend.
   */
  lemma OrdinaryProjectIsValid(w: World, k: Case, c: Config, name: string)
    requires name != "" && name != "." && !StartsWithDots(name) && k.parsed == Some(c) && !k.candidateSupplied
    requires c.frontendFile == Some(Raw(false, [name])) && c.accessPath == None && c.backendPath == None
    requires c.destinationRoot == None && !c.allowWritesIsFalse
    requires k.request == PLAIN_REQUEST
             || k.request == PLAIN_REQUEST.(projectId := ProjectId(c), accessPath := Some(Raw(false, [name])))
    requires w.canonical(k.root) == Some(k.root) && w.canonical(k.root + [".dysflow"]) == Some(k.root + [".dysflow"])
    requires w.canonical(k.root + ["src"]) == Some(k.root + ["src"])
    requires w.canonical(k.root + [name]) == Some(k.root + [name])
    requires w.onDisk(k.root + [".dysflow", "project.json"]) && !w.onDisk(k.root + ["dysflow.project.json"])
    requires w.onDisk(k.root + ["src"]) && w.onDisk(k.root + [name])
    requires w.hasGit(k.root) && !w.hasGit(k.root + ["src"])
    requires StaleSweep.GateIds(k.sweep, Target(w, k, k.root + [name]), k.runtime) == []
    ensures Diagnose(w, k) == Valid && Owning(w, k) == Some(k.root)
  {
    var root, access := k.root, k.root + [name];
    OrdinaryFrontend(k, c, name);
    OrdinarySelection(w, k);
    OrdinaryDestination(w, k, c, access);
    OrdinaryTarget(w, k, c, access, name);
    AllStretchesPass(w, k, c, access, root, None, root);
  }

  lemma OrdinaryFrontend(k: Case, c: Config, name: string)
    requires name != "" && name != "." && !StartsWithDots(name) && c.frontendFile == Some(Raw(false, [name]))
    ensures var access := k.root + [name];
            && FrontendStatus(k, c) == Valid && AccessPath(k, c) == access
            && Walk(k.root, [name]) == access && Within(access, k.root)
  {
    WalkOneName(k.root, name);
    assert name != "..";
    assert (k.root + [name])[|k.root|] == name;
  }

  lemma OrdinarySelection(w: World, k: Case)
    requires k.parsed.Some? && w.canonical(k.root + [".dysflow"]) == Some(k.root + [".dysflow"])
    requires w.onDisk(k.root + [".dysflow", "project.json"]) && !w.onDisk(k.root + ["dysflow.project.json"])
    ensures SelectionStatus(w, k, k.root) == Valid
  {
    var config, dir := k.root + [".dysflow", "project.json"], k.root + [".dysflow"];
    assert Dirname(config) == dir;
    PlainNames();
    assert dir[|k.root|] == ".dysflow";
  }

  lemma OrdinaryDestination(w: World, k: Case, c: Config, access: Path)
    requires Within(access, k.root) && c.destinationRoot == None && !c.allowWritesIsFalse
    requires k.request.projectId == None || k.request.projectId == ProjectId(c)
    requires k.request.destinationRoot == None && k.request.projectRoot == None && k.request.operation == None
    requires w.onDisk(k.root + ["src"]) && w.canonical(k.root + ["src"]) == Some(k.root + ["src"])
    requires w.hasGit(k.root) && !w.hasGit(k.root + ["src"])
    ensures DestinationStatus(w, k, c, access, k.root, None, k.root) == Valid
  {
    var src := k.root + ["src"];
    PlainNames();
    assert src[|k.root|] == "src" && src[..|src| - 1] == k.root;
    assert Within(src, k.root);
    assert WorktreeRoot(w, src) == Some(k.root);
  }

  lemma OrdinaryTarget(w: World, k: Case, c: Config, access: Path, name: string)
    requires access == k.root + [name] && Walk(k.root, [name]) == access && Within(access, k.root)
    requires k.request == PLAIN_REQUEST
             || k.request == PLAIN_REQUEST.(projectId := ProjectId(c), accessPath := Some(Raw(false, [name])))
    requires c.backendPath == None && w.onDisk(access) && w.canonical(access) == Some(access) && w.hasGit(k.root)
    ensures TargetStatus(w, k, c, access, None, k.root) == Valid
  {
    assert Dirname(access) == k.root;
    if k.request.accessPath.Some? {
      var alias := Raw(false, [name]);
      assert Aliases(k, c) == [alias];
      assert Aliases(k, c)[0] == alias && Resolve(k.root, alias) == access;
      assert forall a | a in Aliases(k, c) :: a == alias;
      assert Targets(k, c) == {access};
    } else {
      assert Aliases(k, c) == [];
      assert Targets(k, c) == {};
    }
  }
}
