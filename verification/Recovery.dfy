/**
Recovery from an ambiguous project: a one-shot token with a deadline and a fingerprint of the
visible configuration, and the cached choice it leads to.
 */
module Recovery {
  import opened Wrappers

  const PROJECT_CHOICE_REASON: string := "user_selected_after_ambiguous_project"
  const DEFAULT_RESOLUTION_CACHE_TTL_MS: nat := 600_000
  const MIN_RESOLUTION_CACHE_TTL_MS: nat := 1_000
  const MAX_RESOLUTION_CACHE_TTL_MS: nat := 3_600_000

  datatype Discovered = Discovered(
    id: Option<string>, projectRoot: string, accessPath: Option<string>, configPath: string)
  datatype Project = Project(projectId: string, projectRoot: string, accessPath: Option<string>)

  datatype Pending = Pending(
    token: string, expiresAt: nat, fingerprint: string, projects: seq<Project>,
    configPaths: seq<string>, projectRoots: seq<string>)
  datatype Cached = Cached(
    project: Project, expiresAt: nat, fingerprint: string, configPaths: seq<string>, projectRoots: seq<string>)
  datatype State = State(pending: Option<Pending>, cached: Option<Cached>)

  datatype Input = Input(
    projectId: Option<string>, projectChoiceReason: Option<string>, recoveryToken: Option<string>, cwd: Option<string>)

  datatype Failure =
    | MissingProjectId | MissingReason | RejectedReason | MissingToken
    | UnknownToken | ExpiredToken | ChangedConfig | ProjectIdCollision | RejectedCwd | RejectedProjectId

  datatype Outcome = Failed(failure: Failure) | Chosen(project: Project)

  /** Reads the file system: the fingerprint of config files and worktree registries at one moment. */
  type Fingerprint = (seq<string>, seq<string>) -> string

  const EMPTY: State := State(None, None)

  /** `parsed` is the configured value when it is a safe integer. */
  function TtlMs(parsed: Option<int>): (ttl: nat)
    ensures 1_000 <= ttl <= 3_600_000
    ensures parsed == Some(ttl) || ttl == 600_000
    ensures parsed.Some? && 1_000 <= parsed.value <= 3_600_000 ==> ttl == parsed.value
  {
    if parsed.Some? && MIN_RESOLUTION_CACHE_TTL_MS <= parsed.value <= MAX_RESOLUTION_CACHE_TTL_MS then parsed.value
    else DEFAULT_RESOLUTION_CACHE_TTL_MS
  }

  function AvailableProjects(ds: seq<Discovered>): (ps: seq<Project>)
    ensures forall p | p in ps :: p.projectId != ""
  {
    if ds == [] then []
    else
      var d := ds[|ds| - 1];
      AvailableProjects(ds[..|ds| - 1]) +
      (if d.id.Some? && d.id.value != "" then [Project(d.id.value, d.projectRoot, d.accessPath)] else [])
  }

  /** What is offered for choice: the discovered projects that have an id, with their places, in order. */
  lemma {:induction false} OffersEveryProject(ds: seq<Discovered>, i: nat)
    requires i < |ds| && ds[i].id.Some? && ds[i].id.value != ""
    ensures Project(ds[i].id.value, ds[i].projectRoot, ds[i].accessPath) in AvailableProjects(ds)
  {
    if i < |ds| - 1 { OffersEveryProject(ds[..|ds| - 1], i); }
  }

  lemma {:induction false} OffersOnlyProjects(ds: seq<Discovered>, p: Project) returns (i: nat)
    requires p in AvailableProjects(ds)
    ensures i < |ds| && ds[i].id == Some(p.projectId) && p.projectId != ""
    ensures ds[i].projectRoot == p.projectRoot && ds[i].accessPath == p.accessPath
  {
    var init, last := ds[..|ds| - 1], ds[|ds| - 1];
    if p in AvailableProjects(init) { i := OffersOnlyProjects(init, p); } else { i := |ds| - 1; }
  }

  function Roots(ps: seq<Project>): (r: seq<string>)
    ensures |r| == |ps| && forall i | 0 <= i < |ps| :: r[i] == ps[i].projectRoot
  {
    seq(|ps|, i requires 0 <= i < |ps| => ps[i].projectRoot)
  }

  function ConfigPaths(ds: seq<Discovered>): (r: seq<string>)
    ensures |r| == |ds| && forall i | 0 <= i < |ds| :: r[i] == ds[i].configPath
  {
    seq(|ds|, i requires 0 <= i < |ds| => ds[i].configPath)
  }

  function Keep(ps: seq<Project>, ok: Project -> bool): (r: seq<Project>)
    ensures forall p :: p in r <==> p in ps && ok(p)
  {
    if ps == [] then []
    else Keep(ps[..|ps| - 1], ok) + (if ok(ps[|ps| - 1]) then [ps[|ps| - 1]] else [])
  }

  /** Project number `i` is the only one with the property. */
  predicate Only(ps: seq<Project>, i: int, ok: Project -> bool) {
    0 <= i < |ps| && ok(ps[i]) && forall j | 0 <= j < |ps| && j != i :: !ok(ps[j])
  }

  predicate NoneOf(ps: seq<Project>, ok: Project -> bool) { forall j | 0 <= j < |ps| :: !ok(ps[j]) }

  predicate Several(ps: seq<Project>, ok: Project -> bool) {
    exists i, j | 0 <= i < j < |ps| :: ok(ps[i]) && ok(ps[j])
  }

  lemma {:induction false} KeepNone(ps: seq<Project>, ok: Project -> bool)
    requires NoneOf(ps, ok)
    ensures Keep(ps, ok) == []
  {
    if ps != [] { KeepNone(ps[..|ps| - 1], ok); }
  }

  lemma {:induction false} KeepOnly(ps: seq<Project>, i: nat, ok: Project -> bool)
    requires Only(ps, i, ok)
    ensures Keep(ps, ok) == [ps[i]]
  {
    var init := ps[..|ps| - 1];
    if i < |init| {
      assert forall j | 0 <= j < |init| :: init[j] == ps[j];
      KeepOnly(init, i, ok);
    } else {
      KeepNone(init, ok);
    }
  }

  lemma {:induction false} KeepSeveral(ps: seq<Project>, i: nat, j: nat, ok: Project -> bool)
    requires i < j < |ps| && ok(ps[i]) && ok(ps[j])
    ensures |Keep(ps, ok)| >= 2
  {
    var init := ps[..|ps| - 1];
    assert forall n | 0 <= n < |init| :: init[n] == ps[n];
    if j < |init| {
      KeepSeveral(init, i, j, ok);
    } else {
      assert init[i] in init && init[i] in Keep(init, ok);
      assert Keep(ps, ok) == Keep(init, ok) + [ps[j]];
    }
  }

  /** How many are kept decides which of the three cases holds. */
  lemma KeepDecides(ps: seq<Project>, ok: Project -> bool)
    ensures Keep(ps, ok) == [] <==> NoneOf(ps, ok)
    ensures |Keep(ps, ok)| > 1 <==> Several(ps, ok)
    ensures |Keep(ps, ok)| == 1 ==> exists i :: Only(ps, i, ok) && Keep(ps, ok) == [ps[i]]
  {
    if NoneOf(ps, ok) {
      KeepNone(ps, ok);
    } else {
      var i :| 0 <= i < |ps| && ok(ps[i]);
      assert ps[i] in Keep(ps, ok);
      if j :| 0 <= j < |ps| && j != i && ok(ps[j]) {
        KeepSeveral(ps, if i < j then i else j, if i < j then j else i, ok);
        if i < j { assert ok(ps[i]) && ok(ps[j]); } else { assert ok(ps[j]) && ok(ps[i]); }
      } else {
        KeepOnly(ps, i, ok);
      }
    }
  }

  lemma {:induction false} KeepBoth(ps: seq<Project>, f: Project -> bool, g: Project -> bool, both: Project -> bool)
    requires forall p :: both(p) <==> f(p) && g(p)
    ensures Keep(Keep(ps, f), g) == Keep(ps, both)
  {
    if ps != [] {
      var init, last := ps[..|ps| - 1], ps[|ps| - 1];
      KeepBoth(init, f, g, both);
      KeepMore(Keep(init, f), last, g);
      assert Keep(ps, f) == if f(last) then Keep(init, f) + [last] else Keep(init, f);
    }
  }

  lemma KeepMore(ps: seq<Project>, p: Project, ok: Project -> bool)
    ensures Keep(ps + [p], ok) == Keep(ps, ok) + if ok(p) then [p] else []
  {
    assert (ps + [p])[..|ps|] == ps;
  }

  function WithId(ps: seq<Project>, id: string): seq<Project> { Keep(ps, (p: Project) => p.projectId == id) }

  function AtRoot(ps: seq<Project>, cwd: string, same: (string, string) -> bool): seq<Project> {
    Keep(ps, (p: Project) => same(p.projectRoot, cwd))
  }

  predicate Blank(s: string) { forall c | c in s :: c == ' ' || c == '\t' || c == '\n' || c == '\r' }

  /** The projects the selection names: by id, then by root if the id alone is not enough. */
  function Matches(ps: seq<Project>, id: string, cwd: Option<string>, same: (string, string) -> bool): (r: seq<Project>)
    ensures forall p | p in r :: p in ps && p.projectId == id
  {
    var byId := WithId(ps, id);
    if |byId| > 1 && cwd.Some? && !Blank(cwd.value) then AtRoot(byId, cwd.value, same) else byId
  }

  class ProjectResolutionRecovery {
    const ttlMs: nat
    var pending: Option<Pending>
    var cached: Option<Cached>

    ghost function Now(): State
      reads this
    {
      State(pending, cached)
    }

    constructor (parsed: Option<int>)
      ensures Now() == EMPTY && ttlMs == TtlMs(parsed)
    {
      ttlMs := TtlMs(parsed);
      pending, cached := None, None;
    }

    method Clear()
      modifies this
      ensures Now() == EMPTY
    {
      pending, cached := None, None;
    }

    method Issue(discovered: seq<Discovered>, token: string, now: nat, fp: Fingerprint) returns (projects: seq<Project>)
      modifies this
      ensures projects == AvailableProjects(discovered)
      ensures Now() == Issued(ttlMs, old(Now()), discovered, token, now, fp)
    {
      projects := AvailableProjects(discovered);
      var configPaths := ConfigPaths(discovered);
      var projectRoots := Roots(projects);
      pending := Some(Pending(token, now + ttlMs, fp(configPaths, projectRoots), projects, configPaths, projectRoots));
    }

    /** The clock is read for the deadline check (`now`) and again when the choice is cached (`later`). */
    method Consume(input: Input, now: nat, later: nat, same: (string, string) -> bool, fp: Fingerprint)
      returns (outcome: Outcome)
      modifies this
      ensures (Now(), outcome) == Consumed(ttlMs, old(Now()), input, now, later, same, fp)
    {
      if input.projectId.None? || input.projectId.value == "" { return Failed(MissingProjectId); }
      if input.projectChoiceReason.None? { return Failed(MissingReason); }
      if input.projectChoiceReason.value != PROJECT_CHOICE_REASON { return Failed(RejectedReason); }
      if input.recoveryToken.None? || input.recoveryToken.value == "" { return Failed(MissingToken); }
      if pending.None? || pending.value.token != input.recoveryToken.value { return Failed(UnknownToken); }
      var p := pending.value;
      if now >= p.expiresAt {
        Clear();
        return Failed(ExpiredToken);
      }
      if fp(p.configPaths, p.projectRoots) != p.fingerprint {
        Clear();
        return Failed(ChangedConfig);
      }
      var matches := Matches(p.projects, input.projectId.value, input.cwd, same);
      if |matches| > 1 { return Failed(ProjectIdCollision); }
      if |matches| == 0 {
        return Failed(if |WithId(p.projects, input.projectId.value)| > 1 then RejectedCwd else RejectedProjectId);
      }
      cached := Some(Cached(matches[0], later + ttlMs, p.fingerprint, p.configPaths, p.projectRoots));
      pending := None;
      return Chosen(matches[0]);
    }

    method GetCached(now: nat, fp: Fingerprint) returns (project: Option<Project>)
      modifies this
      ensures (Now(), project) == Fetched(old(Now()), now, fp)
    {
      if cached.None? { return None; }
      var c := cached.value;
      if now >= c.expiresAt || fp(c.configPaths, c.projectRoots) != c.fingerprint {
        Clear();
        return None;
      }
      return Some(c.project);
    }
  }

  // ----- The operations on values -----

  function PendingOf(ttl: nat, ds: seq<Discovered>, token: string, now: nat, fp: Fingerprint): Pending {
    var ps := AvailableProjects(ds);
    Pending(token, now + ttl, fp(ConfigPaths(ds), Roots(ps)), ps, ConfigPaths(ds), Roots(ps))
  }

  function Issued(ttl: nat, s: State, ds: seq<Discovered>, token: string, now: nat, fp: Fingerprint): State {
    s.(pending := Some(PendingOf(ttl, ds, token, now, fp)))
  }

  /** The input alone is acceptable: all three parts of the selection are there. */
  predicate WellFormed(input: Input) {
    && input.projectId.Some? && input.projectId.value != ""
    && input.projectChoiceReason == Some(PROJECT_CHOICE_REASON)
    && input.recoveryToken.Some? && input.recoveryToken.value != ""
  }

  function InputFailure(input: Input): Failure {
    if input.projectId.None? || input.projectId.value == "" then MissingProjectId
    else if input.projectChoiceReason.None? then MissingReason
    else if input.projectChoiceReason.value != PROJECT_CHOICE_REASON then RejectedReason
    else MissingToken
  }

  function Consumed(
      ttl: nat, s: State, input: Input, now: nat, later: nat, same: (string, string) -> bool, fp: Fingerprint)
      : (State, Outcome)
  {
    if !WellFormed(input) then (s, Failed(InputFailure(input)))
    else if s.pending.None? || s.pending.value.token != input.recoveryToken.value then (s, Failed(UnknownToken))
    else
      var p := s.pending.value;
      var matches := Matches(p.projects, input.projectId.value, input.cwd, same);
      if now >= p.expiresAt then (EMPTY, Failed(ExpiredToken))
      else if fp(p.configPaths, p.projectRoots) != p.fingerprint then (EMPTY, Failed(ChangedConfig))
      else if |matches| > 1 then (s, Failed(ProjectIdCollision))
      else if matches == [] then
        (s, Failed(if |WithId(p.projects, input.projectId.value)| > 1 then RejectedCwd else RejectedProjectId))
      else
        (State(None, Some(Cached(matches[0], later + ttl, p.fingerprint, p.configPaths, p.projectRoots))),
         Chosen(matches[0]))
  }

  function Fetched(s: State, now: nat, fp: Fingerprint): (State, Option<Project>) {
    if s.cached.None? then (s, None)
    else
      var c := s.cached.value;
      if now >= c.expiresAt || fp(c.configPaths, c.projectRoots) != c.fingerprint then (EMPTY, None)
      else (s, Some(c.project))
  }

  // ----- Runs -----

  datatype Event =
    | IssueEvent(discovered: seq<Discovered>, token: string, now: nat, fp: Fingerprint)
    | ConsumeEvent(input: Input, now: nat, later: nat, same: (string, string) -> bool, fp: Fingerprint)
    | FetchEvent(now: nat, fp: Fingerprint)
    | ClearEvent(now: nat)

  ghost function After(ttl: nat, s: State, e: Event): State {
    match e
    case IssueEvent(ds, token, now, fp) => Issued(ttl, s, ds, token, now, fp)
    case ConsumeEvent(input, now, later, same, fp) => Consumed(ttl, s, input, now, later, same, fp).0
    case FetchEvent(now, fp) => Fetched(s, now, fp).0
    case ClearEvent(_) => EMPTY
  }

  ghost function StateAt(ttl: nat, run: seq<Event>, n: nat): State
    requires n <= |run|
  {
    if n == 0 then EMPTY else After(ttl, StateAt(ttl, run, n - 1), run[n - 1])
  }

  function EndOf(e: Event): nat { if e.ConsumeEvent? then e.later else e.now }

  /** No token is drawn twice. */
  ghost predicate FreshTokens(run: seq<Event>) {
    forall i, j | 0 <= i < j < |run| && run[i].IssueEvent? && run[j].IssueEvent? :: run[i].token != run[j].token
  }

  /** The clock never goes back either. */
  ghost predicate InOrder(run: seq<Event>) {
    && (forall i | 0 <= i < |run| :: run[i].now <= EndOf(run[i]))
    && (forall i, j | 0 <= i < j < |run| :: EndOf(run[i]) <= run[j].now)
  }

  /** Event number `n` consumes its token successfully. */
  ghost predicate Succeeds(ttl: nat, run: seq<Event>, n: nat)
    requires n < |run|
  {
    run[n].ConsumeEvent? &&
    Consumed(ttl, StateAt(ttl, run, n), run[n].input, run[n].now, run[n].later, run[n].same, run[n].fp).1.Chosen?
  }

  ghost function ChoiceOf(ttl: nat, run: seq<Event>, n: nat): Project
    requires n < |run| && Succeeds(ttl, run, n)
  {
    Consumed(ttl, StateAt(ttl, run, n), run[n].input, run[n].now, run[n].later, run[n].same, run[n].fp).1.project
  }

  /** The token pending before event `n` was issued by event `i`, with no issue, success or clear since. */
  ghost predicate PendingFrom(ttl: nat, run: seq<Event>, n: nat, i: nat)
    requires n <= |run|
  {
    && i < n && run[i].IssueEvent?
    && StateAt(ttl, run, n).pending == Some(PendingOf(ttl, run[i].discovered, run[i].token, run[i].now, run[i].fp))
    && forall j | i < j < n :: !run[j].IssueEvent? && !run[j].ClearEvent? && !Succeeds(ttl, run, j)
  }

  lemma PendingJustIssued(ttl: nat, run: seq<Event>, n: nat)
    requires n < |run| && run[n].IssueEvent?
    ensures PendingFrom(ttl, run, n + 1, n)
  {
    assert StateAt(ttl, run, n + 1) == After(ttl, StateAt(ttl, run, n), run[n]);
  }

  lemma PendingLasts(ttl: nat, run: seq<Event>, n: nat)
    requires n < |run| && !run[n].IssueEvent? && StateAt(ttl, run, n + 1).pending.Some?
    ensures StateAt(ttl, run, n).pending == StateAt(ttl, run, n + 1).pending
    ensures !run[n].ClearEvent? && !Succeeds(ttl, run, n)
  {
    assert StateAt(ttl, run, n + 1) == After(ttl, StateAt(ttl, run, n), run[n]);
  }

  lemma {:induction false} PendingHasIssue(ttl: nat, run: seq<Event>, n: nat) returns (i: nat)
    requires n <= |run| && StateAt(ttl, run, n).pending.Some?
    ensures PendingFrom(ttl, run, n, i)
  {
    if run[n - 1].IssueEvent? {
      i := n - 1;
      PendingJustIssued(ttl, run, n - 1);
    } else {
      PendingLasts(ttl, run, n - 1);
      i := PendingHasIssue(ttl, run, n - 1);
    }
  }

  /** The cached choice before event `n` was made by the successful event `j`. */
  ghost predicate CachedFrom(ttl: nat, run: seq<Event>, n: nat, j: nat)
    requires n <= |run|
  {
    && j < n && Succeeds(ttl, run, j) && StateAt(ttl, run, j).pending.Some?
    && var p := StateAt(ttl, run, j).pending.value;
       StateAt(ttl, run, n).cached ==
       Some(Cached(ChoiceOf(ttl, run, j), run[j].later + ttl, p.fingerprint, p.configPaths, p.projectRoots))
  }

  lemma CachedJustChosen(ttl: nat, run: seq<Event>, n: nat)
    requires n < |run| && Succeeds(ttl, run, n)
    ensures CachedFrom(ttl, run, n + 1, n)
  {
    assert StateAt(ttl, run, n + 1) == After(ttl, StateAt(ttl, run, n), run[n]);
  }

  lemma CachedLasts(ttl: nat, run: seq<Event>, n: nat)
    requires n < |run| && !Succeeds(ttl, run, n) && StateAt(ttl, run, n + 1).cached.Some?
    ensures StateAt(ttl, run, n).cached == StateAt(ttl, run, n + 1).cached
  {
    assert StateAt(ttl, run, n + 1) == After(ttl, StateAt(ttl, run, n), run[n]);
  }

  lemma {:induction false} CachedHasChoice(ttl: nat, run: seq<Event>, n: nat) returns (j: nat)
    requires n <= |run| && StateAt(ttl, run, n).cached.Some?
    ensures CachedFrom(ttl, run, n, j)
  {
    if Succeeds(ttl, run, n - 1) {
      j := n - 1;
      CachedJustChosen(ttl, run, n - 1);
    } else {
      CachedLasts(ttl, run, n - 1);
      j := CachedHasChoice(ttl, run, n - 1);
    }
  }

  /**
  A token succeeds only while it is the latest issued, before its deadline, with the fingerprint still
  equal to the one at issue; the chosen project is in the envelope it was issued with.
   */
  lemma SuccessUsesLatestToken(ttl: nat, run: seq<Event>, n: nat) returns (i: nat)
    requires n < |run| && Succeeds(ttl, run, n)
    ensures i < n && run[i].IssueEvent? && run[n].input.recoveryToken == Some(run[i].token)
    ensures forall j | i < j < n :: !run[j].IssueEvent? && !run[j].ClearEvent? && !Succeeds(ttl, run, j)
    ensures run[n].now < run[i].now + ttl
    ensures var ps := AvailableProjects(run[i].discovered);
            && ChoiceOf(ttl, run, n) in ps && Some(ChoiceOf(ttl, run, n).projectId) == run[n].input.projectId
            && run[n].fp(ConfigPaths(run[i].discovered), Roots(ps)) ==
               run[i].fp(ConfigPaths(run[i].discovered), Roots(ps))
    ensures PendingFrom(ttl, run, n, i)
  {
    i := PendingHasIssue(ttl, run, n);
  }

  /** No token succeeds twice in a run. */
  lemma TokenSucceedsAtMostOnce(ttl: nat, run: seq<Event>, m: nat, n: nat)
    requires FreshTokens(run) && m < n < |run| && Succeeds(ttl, run, m) && Succeeds(ttl, run, n)
    ensures run[m].input.recoveryToken != run[n].input.recoveryToken
  {
    var i := SuccessUsesLatestToken(ttl, run, m);
    var j := SuccessUsesLatestToken(ttl, run, n);
    assert run[i].token == run[j].token ==> i == j;
  }

  /**
  Whatever the cache returns was chosen from the envelope of an issued token, its fingerprint still
  equals the one at issue, and less than one lifetime has passed since the second clock reading of the
  consuming call; that makes less than two since issue if that reading was not past the token's deadline.
   */
  lemma CachedChoiceIsTraceable(ttl: nat, run: seq<Event>, n: nat) returns (i: nat, j: nat)
    requires n < |run| && run[n].FetchEvent?
    requires Fetched(StateAt(ttl, run, n), run[n].now, run[n].fp).1.Some?
    ensures i < j < n && run[i].IssueEvent? && Succeeds(ttl, run, j) && run[j].input.recoveryToken == Some(run[i].token)
    ensures Fetched(StateAt(ttl, run, n), run[n].now, run[n].fp).1 == Some(ChoiceOf(ttl, run, j))
    ensures ChoiceOf(ttl, run, j) in AvailableProjects(run[i].discovered)
    ensures var paths, roots := ConfigPaths(run[i].discovered), Roots(AvailableProjects(run[i].discovered));
            run[n].fp(paths, roots) == run[i].fp(paths, roots)
    ensures run[j].now < run[i].now + ttl && run[n].now < run[j].later + ttl
    ensures run[j].later <= run[i].now + ttl ==> run[n].now < run[i].now + 2 * ttl
  {
    j := CachedHasChoice(ttl, run, n);
    i := SuccessUsesLatestToken(ttl, run, j);
  }

  /** From state `s` a fetch at some moment from `from` on, at age two lifetimes or more, returns a choice. */
  ghost predicate ServesTooOld(ttl: nat, s: State, issued: nat, from: nat) {
    exists now: nat, fp: Fingerprint ::
      now >= from && now >= issued + 2 * ttl && Fetched(s, now, fp).1.Some?
  }

  /**
  Exactly when the two lifetimes are kept: after a successful consume `j` of the token issued by `i`, no
  fetch returns the choice two lifetimes after issue if and only if the second clock reading of the
  consuming call was not past the token's own deadline.
   */
  lemma TwoLifetimesIff(ttl: nat, run: seq<Event>, j: nat) returns (i: nat)
    requires ttl >= 1 && j < |run| && Succeeds(ttl, run, j)
    ensures i < j && run[i].IssueEvent? && run[j].input.recoveryToken == Some(run[i].token)
    ensures !ServesTooOld(ttl, StateAt(ttl, run, j + 1), run[i].now, run[j].later) <==> run[j].later <= run[i].now + ttl
  {
    i := SuccessUsesLatestToken(ttl, run, j);
    SuccessCaches(ttl, run, j);
    ServesTooOldIff(ttl, StateAt(ttl, run, j + 1), run[i].now, run[j].later);
  }

  lemma SuccessCaches(ttl: nat, run: seq<Event>, j: nat)
    requires j < |run| && Succeeds(ttl, run, j)
    ensures StateAt(ttl, run, j + 1).cached.Some?
    ensures StateAt(ttl, run, j + 1).cached.value.expiresAt == run[j].later + ttl
  {
    assert StateAt(ttl, run, j + 1) == After(ttl, StateAt(ttl, run, j), run[j]);
  }

  lemma ServesTooOldIff(ttl: nat, s: State, issued: nat, later: nat)
    requires ttl >= 1 && s.cached.Some? && s.cached.value.expiresAt == later + ttl
    ensures ServesTooOld(ttl, s, issued, later) <==> later > issued + ttl
  {
    if later > issued + ttl {
      var text := s.cached.value.fingerprint;
      var fp: Fingerprint := (paths, roots) => text;
      var now := later + ttl - 1;
      assert now >= later && now >= issued + 2 * ttl && Fetched(s, now, fp).1.Some?;
    }
  }

  lemma OneProject(d: Discovered)
    requires d.id.Some? && d.id.value != ""
    ensures var p := Project(d.id.value, d.projectRoot, d.accessPath);
            AvailableProjects([d]) == [p] && WithId([p], p.projectId) == [p]
  {
    var p := Project(d.id.value, d.projectRoot, d.accessPath);
    assert [d][..0] == [] && [p][..0] == [];
    KeepOnly([p], 0, (q: Project) => q.projectId == p.projectId);
  }

  lemma ConsumeOne(
      ttl: nat, d: Discovered, token: string, now: nat, later: nat, same: (string, string) -> bool, fp: Fingerprint)
    requires d.id.Some? && d.id.value != "" && token != "" && now < ttl
    ensures var s := Issued(ttl, EMPTY, [d], token, 0, fp);
            var input := Input(d.id, Some(PROJECT_CHOICE_REASON), Some(token), None);
            Consumed(ttl, s, input, now, later, same, fp).0.cached ==
            Some(Cached(Project(d.id.value, d.projectRoot, d.accessPath), later + ttl,
                        fp(ConfigPaths([d]), Roots(AvailableProjects([d]))), ConfigPaths([d]),
                        Roots(AvailableProjects([d]))))
  {
    OneProject(d);
  }

  lemma ThreeInOrder(issue: Event, consume: Event, fetch: Event)
    requires issue.IssueEvent? && consume.ConsumeEvent? && fetch.FetchEvent?
    requires issue.now <= consume.now <= consume.later <= fetch.now
    ensures FreshTokens([issue, consume, fetch]) && InOrder([issue, consume, fetch])
  {
  }

  /** The gap matters: whatever the lifetime, a slow consuming call makes a choice outlive two of them. */
  lemma SlowConsumeOutlivesTwoLifetimes(ttl: nat) returns (run: seq<Event>)
    requires ttl >= 1
    ensures FreshTokens(run) && InOrder(run) && |run| == 3 && run[0].IssueEvent? && run[2].FetchEvent?
    ensures Fetched(StateAt(ttl, run, 2), run[2].now, run[2].fp).1.Some?
    ensures run[2].now >= run[0].now + 2 * ttl
  {
    var fp: Fingerprint := (paths, roots) => "f";
    var same := (a: string, b: string) => a == b;
    var input := Input(Some("p"), Some(PROJECT_CHOICE_REASON), Some("t"), None);
    var d := Discovered(Some("p"), "/w", None, "/w/project.json");
    var issue, consume := IssueEvent([d], "t", 0, fp), ConsumeEvent(input, ttl - 1, 2 * ttl, same, fp);
    run := [issue, consume, FetchEvent(3 * ttl - 1, fp)];
    ThreeInOrder(issue, consume, run[2]);
    ConsumeOne(ttl, d, "t", ttl - 1, 2 * ttl, same, fp);
    assert StateAt(ttl, run, 0) == EMPTY;
    assert StateAt(ttl, run, 1) == After(ttl, EMPTY, issue);
    assert StateAt(ttl, run, 2) == After(ttl, StateAt(ttl, run, 1), consume);
  }

  /** A consume that fails leaves the state as it was or empties it. */
  lemma FailedConsumeKeepsOrEmpties(
      ttl: nat, s: State, input: Input, now: nat, later: nat, same: (string, string) -> bool, fp: Fingerprint)
    requires Consumed(ttl, s, input, now, later, same, fp).1.Failed?
    ensures var s' := Consumed(ttl, s, input, now, later, same, fp).0; s' == s || s' == EMPTY
    ensures Consumed(ttl, s, input, now, later, same, fp).0 != s ==>
      && s.pending.Some?
      && var p := s.pending.value; now >= p.expiresAt || fp(p.configPaths, p.projectRoots) != p.fingerprint
  {
  }

  // ----- Which project is chosen -----

  function IdIs(id: string): Project -> bool { (p: Project) => p.projectId == id }

  function IdAndRootAre(id: string, cwd: string, same: (string, string) -> bool): Project -> bool {
    (p: Project) => p.projectId == id && same(p.projectRoot, cwd)
  }

  /** A working directory is given: more than white space. */
  predicate CwdGiven(cwd: Option<string>) {
    && cwd.Some?
    && exists i | 0 <= i < |cwd.value| ::
         cwd.value[i] != ' ' && cwd.value[i] != '\t' && cwd.value[i] != '\n' && cwd.value[i] != '\r'
  }

  lemma GivenIsNotBlank(cwd: Option<string>)
    ensures CwdGiven(cwd) <==> cwd.Some? && !Blank(cwd.value)
  {
    if CwdGiven(cwd) {
      var i :| 0 <= i < |cwd.value| && cwd.value[i] != ' ' && cwd.value[i] != '\t' && cwd.value[i] != '\n'
               && cwd.value[i] != '\r';
      assert cwd.value[i] in cwd.value;
    }
  }

  lemma MatchesById(ps: seq<Project>, id: string, cwd: Option<string>, same: (string, string) -> bool)
    requires !Several(ps, IdIs(id)) || !CwdGiven(cwd)
    ensures Matches(ps, id, cwd, same) == WithId(ps, id) == Keep(ps, IdIs(id))
  {
    GivenIsNotBlank(cwd);
    KeepBoth(ps, IdIs(id), (p: Project) => true, (p: Project) => p.projectId == id);
    KeepSame(ps, (p: Project) => p.projectId == id, IdIs(id));
    KeepDecides(ps, IdIs(id));
  }

  lemma {:induction false} KeepSame(ps: seq<Project>, f: Project -> bool, g: Project -> bool)
    requires forall p :: f(p) == g(p)
    ensures Keep(ps, f) == Keep(ps, g)
  {
    if ps != [] { KeepSame(ps[..|ps| - 1], f, g); }
  }

  lemma MatchesByRoot(ps: seq<Project>, id: string, cwd: string, same: (string, string) -> bool)
    requires Several(ps, IdIs(id)) && CwdGiven(Some(cwd))
    ensures Matches(ps, id, Some(cwd), same) == Keep(ps, IdAndRootAre(id, cwd, same))
    ensures |WithId(ps, id)| > 1
  {
    GivenIsNotBlank(Some(cwd));
    var byId, byRoot := (p: Project) => p.projectId == id, (p: Project) => same(p.projectRoot, cwd);
    KeepSame(ps, byId, IdIs(id));
    KeepDecides(ps, IdIs(id));
    KeepBoth(ps, byId, byRoot, IdAndRootAre(id, cwd, same));
  }

  /** The selection is complete, names the pending token in time, and nothing visible has changed. */
  predicate Accepts(s: State, input: Input, now: nat, fp: Fingerprint) {
    && input.projectId.Some? && input.projectId.value != ""
    && input.projectChoiceReason == Some("user_selected_after_ambiguous_project")
    && input.recoveryToken.Some? && input.recoveryToken.value != ""
    && s.pending.Some? && s.pending.value.token == input.recoveryToken.value && now < s.pending.value.expiresAt
    && fp(s.pending.value.configPaths, s.pending.value.projectRoots) == s.pending.value.fingerprint
  }

  /** What an accepted selection leads to, by how many offered projects it names. */
  lemma SelectionDecides(
      ttl: nat, s: State, input: Input, now: nat, later: nat, same: (string, string) -> bool, fp: Fingerprint)
    requires Accepts(s, input, now, fp)
    ensures var ps, id, out := s.pending.value.projects, input.projectId.value,
                               Consumed(ttl, s, input, now, later, same, fp).1;
            && (NoneOf(ps, IdIs(id)) ==> out == Failed(RejectedProjectId))
            && (forall i | Only(ps, i, IdIs(id)) :: out == Chosen(ps[i]))
            && (Several(ps, IdIs(id)) && !CwdGiven(input.cwd) ==> out == Failed(ProjectIdCollision))
    ensures CwdGiven(input.cwd) && Several(s.pending.value.projects, IdIs(input.projectId.value)) ==>
            var ps, here, out := s.pending.value.projects,
                                 IdAndRootAre(input.projectId.value, input.cwd.value, same),
                                 Consumed(ttl, s, input, now, later, same, fp).1;
            && (NoneOf(ps, here) ==> out == Failed(RejectedCwd))
            && (forall i | Only(ps, i, here) :: out == Chosen(ps[i]))
            && (Several(ps, here) ==> out == Failed(ProjectIdCollision))
  {
    var ps, id := s.pending.value.projects, input.projectId.value;
    KeepDecides(ps, IdIs(id));
    forall i | Only(ps, i, IdIs(id)) ensures Keep(ps, IdIs(id)) == [ps[i]] { KeepOnly(ps, i, IdIs(id)); }
    if Several(ps, IdIs(id)) && CwdGiven(input.cwd) {
      var here := IdAndRootAre(id, input.cwd.value, same);
      MatchesByRoot(ps, id, input.cwd.value, same);
      KeepDecides(ps, here);
      forall i | Only(ps, i, here) ensures Keep(ps, here) == [ps[i]] { KeepOnly(ps, i, here); }
    } else {
      MatchesById(ps, id, input.cwd, same);
    }
  }

  /**
  A consume succeeds only with the one project the selection names: the only one of that id, or, where
  several have it, the only one of them at the given working directory.
   */
  lemma ChoiceIsTheOneNamed(
      ttl: nat, s: State, input: Input, now: nat, later: nat, same: (string, string) -> bool, fp: Fingerprint)
    returns (i: nat)
    requires Consumed(ttl, s, input, now, later, same, fp).1.Chosen?
    ensures Accepts(s, input, now, fp) && i < |s.pending.value.projects|
    ensures Consumed(ttl, s, input, now, later, same, fp).1.project == s.pending.value.projects[i]
    ensures var ps, id := s.pending.value.projects, input.projectId.value;
            || Only(ps, i, IdIs(id))
            || (Several(ps, IdIs(id)) && CwdGiven(input.cwd) && Only(ps, i, IdAndRootAre(id, input.cwd.value, same)))
  {
    var ps, id := s.pending.value.projects, input.projectId.value;
    SelectionDecides(ttl, s, input, now, later, same, fp);
    KeepDecides(ps, IdIs(id));
    if Several(ps, IdIs(id)) {
      var here := IdAndRootAre(id, input.cwd.value, same);
      KeepDecides(ps, here);
      i :| Only(ps, i, here);
    } else {
      i :| Only(ps, i, IdIs(id));
    }
  }
}
