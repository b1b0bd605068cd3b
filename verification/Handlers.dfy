/** `POST /v1/runs`: the gates, the slot, the run, and what a later resume finds. */
module Handlers {
  import opened Text
  import opened FileTree
  import opened Allowlist
  import opened Sessions
  import opened Argv
  import opened EventFormat
  import opened EventStream

  datatype Config = Config(
    roots: seq<string>, cwd: Option<string>, allowDangerous: bool, hasApiKey: bool, defaultModel: string)

  datatype Refusal =
    | InvalidRequest | DangerousModeDisabled | BareRequiresApiKey | WorkdirForbidden | PluginDirForbidden | Busy

  // ----- the gates -----

  /** The requested workdir, or the one the resumed session is known to have run in. */
  function WantedWorkdir(recs: Recs, r: RunRequest): string {
    if r.workdir == "" && r.resume != "" && r.resume in recs then recs[r.resume].workdir else r.workdir
  }

  ghost function WorkdirFor(cfg: Config, fs: Fs, recs: Recs, r: RunRequest): Option<string> {
    var wanted := WantedWorkdir(recs, r);
    if wanted == "" then None else Validated(fs, cfg.roots, cfg.cwd, wanted)
  }

  ghost predicate PluginsAllowed(cfg: Config, fs: Fs, dirs: seq<string>) {
    forall i :: 0 <= i < |dirs| ==> Validated(fs, cfg.roots, cfg.cwd, dirs[i]).Some?
  }

  /** The canonical workdir of an admitted request, or the first gate that refuses it. */
  ghost function Gates(cfg: Config, fs: Fs, recs: Recs, r: RunRequest, ck: Checks): Result<string, Refusal> {
    if Validate(r, ck).Some? then Err(InvalidRequest)
    else if r.permissionMode in {"bypassPermissions", "dontAsk"} && !cfg.allowDangerous then Err(DangerousModeDisabled)
    else if r.bare && !cfg.hasApiKey then Err(BareRequiresApiKey)
    else match WorkdirFor(cfg, fs, recs, r)
      case None => Err(WorkdirForbidden)
      case Some(w) => if PluginsAllowed(cfg, fs, r.pluginDirs) then Ok(w) else Err(PluginDirForbidden)
  }

  // ----- what the gates keep out -----

  /** The canonical form of the path lies under an allowed root. */
  ghost predicate LiesUnderRoot(cfg: Config, fs: Fs, p: string) {
    var abs := Abs(cfg.cwd, p);
    abs.Some? && Covered(fs, cfg.roots, cfg.cwd, Canonical(fs, abs.value))
  }

  ghost predicate CanonicalForm(cfg: Config, fs: Fs, p: string, w: string) {
    var abs := Abs(cfg.cwd, p);
    abs.Some? && w == Render(Canonical(fs, abs.value))
  }

  /** The workdir a request asks for: its own, else that of the known session it resumes. */
  ghost predicate AsksFor(recs: Recs, r: RunRequest, wanted: string) {
    && wanted != ""
    && (r.workdir != "" ==> wanted == r.workdir)
    && (r.workdir == "" ==> r.resume != "" && r.resume in recs && wanted == recs[r.resume].workdir)
  }

  /** All that is asked of a request before it may run. */
  ghost predicate Admissible(cfg: Config, fs: Fs, recs: Recs, r: RunRequest, ck: Checks) {
    && ValidRequest(r, ck)
    && (r.permissionMode == "bypassPermissions" || r.permissionMode == "dontAsk" ==> cfg.allowDangerous)
    && (r.bare ==> cfg.hasApiKey)
    && (exists wanted :: AsksFor(recs, r, wanted) && LiesUnderRoot(cfg, fs, wanted))
    && forall i :: 0 <= i < |r.pluginDirs| ==> LiesUnderRoot(cfg, fs, r.pluginDirs[i])
  }

  lemma ValidatedMeans(cfg: Config, fs: Fs, p: string)
    ensures Validated(fs, cfg.roots, cfg.cwd, p).Some? <==> LiesUnderRoot(cfg, fs, p)
    ensures Validated(fs, cfg.roots, cfg.cwd, p).Some? ==>
              CanonicalForm(cfg, fs, p, Validated(fs, cfg.roots, cfg.cwd, p).value)
  {
  }

  lemma WorkdirMeans(cfg: Config, fs: Fs, recs: Recs, r: RunRequest)
    ensures var w := WorkdirFor(cfg, fs, recs, r);
            && (w.Some? <==> exists wanted :: AsksFor(recs, r, wanted) && LiesUnderRoot(cfg, fs, wanted))
            && forall wanted :: w.Some? && AsksFor(recs, r, wanted) ==> CanonicalForm(cfg, fs, wanted, w.value)
  {
    var wanted := WantedWorkdir(recs, r);
    ValidatedMeans(cfg, fs, wanted);
    assert wanted != "" ==> AsksFor(recs, r, wanted);
    assert forall other :: AsksFor(recs, r, other) ==> other == wanted;
  }

  /** The gates let through exactly the admissible requests, each in the workdir it asks for. */
  lemma GatesMean(cfg: Config, fs: Fs, recs: Recs, r: RunRequest, ck: Checks)
    ensures var g := Gates(cfg, fs, recs, r, ck);
            && (g.Ok? <==> Admissible(cfg, fs, recs, r, ck))
            && forall wanted :: g.Ok? && AsksFor(recs, r, wanted) ==> CanonicalForm(cfg, fs, wanted, g.value)
  {
    ValidatedIff(r, ck);
    WorkdirMeans(cfg, fs, recs, r);
    forall i | 0 <= i < |r.pluginDirs|
      ensures Validated(fs, cfg.roots, cfg.cwd, r.pluginDirs[i]).Some? <==> LiesUnderRoot(cfg, fs, r.pluginDirs[i])
    {
      ValidatedMeans(cfg, fs, r.pluginDirs[i]);
    }
  }

  predicate MayRunMode(cfg: Config, r: RunRequest) {
    r.permissionMode == "bypassPermissions" || r.permissionMode == "dontAsk" ==> cfg.allowDangerous
  }

  ghost predicate HasWorkdir(cfg: Config, fs: Fs, recs: Recs, r: RunRequest) {
    exists wanted :: AsksFor(recs, r, wanted) && LiesUnderRoot(cfg, fs, wanted)
  }

  /** Each refusal names the first thing missing, in the order of the gates. */
  lemma RefusalsMean(cfg: Config, fs: Fs, recs: Recs, r: RunRequest, ck: Checks)
    ensures var g := Gates(cfg, fs, recs, r, ck);
            && (g == Err(InvalidRequest) <==> !ValidRequest(r, ck))
            && (g == Err(DangerousModeDisabled) <==> ValidRequest(r, ck) && !MayRunMode(cfg, r))
            && (g == Err(BareRequiresApiKey) <==>
                  ValidRequest(r, ck) && MayRunMode(cfg, r) && r.bare && !cfg.hasApiKey)
            && (g == Err(WorkdirForbidden) <==>
                  && ValidRequest(r, ck) && MayRunMode(cfg, r) && (r.bare ==> cfg.hasApiKey)
                  && !HasWorkdir(cfg, fs, recs, r))
            && (g == Err(PluginDirForbidden) <==>
                  && ValidRequest(r, ck) && MayRunMode(cfg, r) && (r.bare ==> cfg.hasApiKey)
                  && HasWorkdir(cfg, fs, recs, r)
                  && exists i :: 0 <= i < |r.pluginDirs| && !LiesUnderRoot(cfg, fs, r.pluginDirs[i]))
  {
    ValidatedIff(r, ck);
    WorkdirMeans(cfg, fs, recs, r);
    GatesMean(cfg, fs, recs, r, ck);
  }

  // ----- what a run leaves in the store -----

  /** How the command ended, and the session id in its output if that could be parsed. */
  datatype RunOutcome = RunOutcome(failed: bool, parsedId: Option<string>)

  /**
   One request and all its handling meets: the random id, the time, whether the semaphore grants a
   slot before the context ends, how a run that is not streamed turns out, and for a streamed one
   the child, if it can be started, and what the connection carries.
   */
  datatype Request = Request(
    r: RunRequest, newId: string, now: int, slot: bool, outcome: RunOutcome,
    child: Option<Child>, room: Option<nat>, flushLimit: Option<nat>)

  datatype CommandSpec = CommandSpec(args: seq<string>, dir: string)

  function InputFor(cfg: Config, q: Request, workdir: string): Input {
    Input(q.r.(workdir := workdir), cfg.defaultModel, q.newId)
  }

  /** The child is asked for nothing the policy forbids, told by its own command line. */
  ghost predicate WithinPolicy(cfg: Config, fs: Fs, spec: CommandSpec) {
    Decode(spec.args).Some? &&
    var d := Decode(spec.args).value;
    && (d.limits.permissionMode == "bypassPermissions" || d.limits.permissionMode == "dontAsk" ==> cfg.allowDangerous)
    && (d.settings.bare ==> cfg.hasApiKey)
    && (forall i :: 0 <= i < |d.settings.pluginDirs| ==> LiesUnderRoot(cfg, fs, d.settings.pluginDirs[i]))
    && d.limits.addDir == spec.dir && LiesUnderRoot(cfg, fs, spec.dir) && CanonicalForm(cfg, fs, spec.dir, spec.dir)
  }

  /** And for what the request says: its prompt, its model or the configured one, its session or a new one. */
  ghost predicate AsRequested(cfg: Config, q: Request, spec: CommandSpec) {
    Decode(spec.args).Some? &&
    var d := Decode(spec.args).value;
    && d.run.prompt == q.r.prompt
    && d.run.model == (if q.r.model != "" then q.r.model else cfg.defaultModel)
    && d.session.resume == q.r.resume
    && (q.r.resume == "" && !q.r.continue_ ==>
          d.session.sessionId == if q.r.sessionId != "" then q.r.sessionId else q.newId)
  }

  lemma SpecMeans(cfg: Config, fs: Fs, recs: Recs, q: Request, ck: Checks, w: string)
    requires Gates(cfg, fs, recs, q.r, ck) == Ok(w)
    ensures var spec := CommandSpec(Shown(Order(), InputFor(cfg, q, w)), w);
            WithinPolicy(cfg, fs, spec) && AsRequested(cfg, q, spec)
  {
    DecodeBuilt(InputFor(cfg, q, w));
    GatesMean(cfg, fs, recs, q.r, ck);
    AcceptedAgain(fs, cfg.roots, cfg.cwd, WantedWorkdir(recs, q.r));
    ValidatedMeans(cfg, fs, w);
  }

  /** `Runner.Run`: the pinned or resumed id, else the one the output names. */
  function EffectiveId(x: Input, out: RunOutcome): string {
    if ReturnedId(x) != "" then ReturnedId(x) else out.parsedId.GetOr("")
  }

  function TouchOf(cfg: Config, q: Request, workdir: string): Touch {
    Touch(EffectiveId(InputFor(cfg, q, workdir), q.outcome), workdir, q.r.model, "", q.now)
  }

  function StreamTouch(cfg: Config, q: Request, workdir: string, c: Child, extract: Extract): Touch {
    Touch(RunId(c, ReturnedId(InputFor(cfg, q, workdir)), extract), workdir, q.r.model, "", q.now)
  }

  /** The streamed run starts, and the client stays until the last line. */
  predicate StreamsToEnd(q: Request) {
    q.child.Some? && Carries(q.room, q.flushLimit, Messages(ScannedLines(q.child.value)))
  }

  /** The run, once it has its slot, ends well. */
  predicate Succeeds(q: Request) {
    if q.r.stream then StreamsToEnd(q) else !q.outcome.failed && q.outcome.parsedId.Some?
  }

  /** Where a daemon runs: its configuration, the tree, and the parsers it calls. */
  datatype Site = Site(cfg: Config, fs: Fs, ck: Checks, extract: Extract)

  ghost function GatesAt(s: Site, recs: Recs, q: Request): Result<string, Refusal> {
    Gates(s.cfg, s.fs, recs, q.r, s.ck)
  }

  /** What a request will record if it passes the gates on this store; at most one touch. */
  ghost function TouchesOf(s: Site, recs: Recs, q: Request): (ts: seq<Touch>) {
    match GatesAt(s, recs, q)
    case Err(_) => []
    case Ok(w) =>
      if !q.slot then []
      else if !q.r.stream then [TouchOf(s.cfg, q, w)]
      else if StreamsToEnd(q) then [StreamTouch(s.cfg, q, w, q.child.value, s.extract)]
      else []
  }

  datatype Reply = Refused(why: Refusal) | RunFailed | Completed

  lemma OneTouch(recs: Recs, t: Touch)
    ensures UpdatedAll(recs, [t]) == Updated(recs, t)
  {
    assert [t][1..] == [];
  }

  /** What an admitted request with a slot does to the store, by the kind of its run. */
  lemma AdmittedTouches(s: Site, recs: Recs, q: Request, w: string)
    requires GatesAt(s, recs, q) == Ok(w) && q.slot
    ensures Validate(InputFor(s.cfg, q, w).r, s.ck).None?
    ensures TouchesOf(s, recs, q) == [] <==> q.r.stream && !StreamsToEnd(q)
    ensures UpdatedAll(recs, TouchesOf(s, recs, q)) ==
            if !q.r.stream then Updated(recs, TouchOf(s.cfg, q, w))
            else if StreamsToEnd(q) then Updated(recs, StreamTouch(s.cfg, q, w, q.child.value, s.extract))
            else recs
  {
    OneTouch(recs, TouchOf(s.cfg, q, w));
    if StreamsToEnd(q) {
      OneTouch(recs, StreamTouch(s.cfg, q, w, q.child.value, s.extract));
    }
  }

  class Server {
    const cfg: Config
    const store: Store
    var free: nat  // free slots of the semaphore

    constructor (cfg: Config, store: Store, free: nat)
      ensures this.cfg == cfg && this.store == store && this.free == free
    {
      this.cfg, this.store, this.free := cfg, store, free;
    }

    method ResolveWorkdir(r: RunRequest, eval: EvalSymlinks, ghost fs: Fs) returns (w: Option<string>)
      requires Resolves(eval, fs)
      ensures w == WorkdirFor(cfg, fs, store.recs, r)
    {
      var workdir := r.workdir;
      if workdir == "" && r.resume != "" {
        var rec := store.Get(r.resume);
        if rec.Some? {
          workdir := rec.value.workdir;
        }
      }
      if workdir == "" {
        return None;
      }
      w := ValidatePath(eval, fs, cfg.roots, cfg.cwd, workdir);
    }

    /** The gates in their order. */
    method CheckGates(r: RunRequest, ck: Checks, eval: EvalSymlinks, ghost fs: Fs)
      returns (g: Result<string, Refusal>)
      requires Resolves(eval, fs)
      ensures g == Gates(cfg, fs, store.recs, r, ck)
    {
      if Validate(r, ck).Some? {
        return Err(InvalidRequest);
      }
      if r.permissionMode in {"bypassPermissions", "dontAsk"} && !cfg.allowDangerous {
        return Err(DangerousModeDisabled);
      }
      if r.bare && !cfg.hasApiKey {
        return Err(BareRequiresApiKey);
      }
      var w := ResolveWorkdir(r, eval, fs);
      if w.None? {
        return Err(WorkdirForbidden);
      }
      var allowed := CheckPluginDirs(r.pluginDirs, eval, fs);
      return if allowed then Ok(w.value) else Err(PluginDirForbidden);
    }

    /** The loop over the plugin directories, left at the first one outside the roots. */
    method CheckPluginDirs(dirs: seq<string>, eval: EvalSymlinks, ghost fs: Fs) returns (ok: bool)
      requires Resolves(eval, fs)
      ensures ok <==> PluginsAllowed(cfg, fs, dirs)
    {
      for i := 0 to |dirs|
        invariant forall k :: 0 <= k < i ==> Validated(fs, cfg.roots, cfg.cwd, dirs[k]).Some?
      {
        var dir := ValidatePath(eval, fs, cfg.roots, cfg.cwd, dirs[i]);
        if dir.None? {
          return false;
        }
      }
      return true;
    }

    /** A run that is not streamed, with the slot held. */
    method RunOnce(q: Request, x: Input, built: Built, fault: Fault) returns (reply: Reply)
      requires x == InputFor(cfg, q, x.r.workdir) && built.sessionId == ReturnedId(x)
      modifies store
      ensures store.recs == Updated(old(store.recs), TouchOf(cfg, q, x.r.workdir))
      ensures reply == (if q.outcome.failed || q.outcome.parsedId.None? then RunFailed else Completed)
    {
      var sessionId := built.sessionId;
      if q.outcome.parsedId.Some? && sessionId == "" {
        sessionId := q.outcome.parsedId.value;
      }
      if sessionId != "" {
        var _ := store.Upsert(Touch(sessionId, x.r.workdir, x.r.model, "", q.now), fault);
      }
      reply := if q.outcome.failed || q.outcome.parsedId.None? then RunFailed else Completed;
    }

    /** A streamed run, with the slot held. */
    method RunStream(q: Request, x: Input, built: Built, resp: Response, extract: Extract, fault: Fault)
      returns (reply: Reply)
      requires x == InputFor(cfg, q, x.r.workdir) && built.sessionId == ReturnedId(x)
      requires resp.room == q.room && resp.flushLimit == q.flushLimit && resp.At([], store.recs)
      modifies store, resp
      ensures reply == (if StreamsToEnd(q) then Completed else RunFailed)
      ensures reply.RunFailed? ==> store.recs == old(store.recs) && store.file == old(store.file)
      ensures reply.Completed? ==>
                && store.recs == Updated(old(store.recs), StreamTouch(cfg, q, x.r.workdir, q.child.value, extract))
                && resp.sent == Clip(q.room, EncodeAll(AllFrames(q.child.value, ReturnedId(x), extract)))
    {
      if q.child.None? {
        return RunFailed;
      }
      var complete := StreamRun(resp, store, q.child.value, built.sessionId, x.r.workdir, x.r.model,
                                extract, q.now, fault);
      reply := if complete then Completed else RunFailed;
    }

    /** The admitted request, with the slot held: build the command line, then run or stream. */
    method RunAdmitted(q: Request, w: string, resp: Response, extract: Extract, ck: Checks, fault: Fault, ghost fs: Fs)
      returns (reply: Reply, spec: CommandSpec)
      requires q.newId != "" && q.slot && Gates(cfg, fs, store.recs, q.r, ck) == Ok(w)
      requires resp.room == q.room && resp.flushLimit == q.flushLimit && resp.At([], store.recs)
      modifies store, resp
      ensures store.recs == UpdatedAll(old(store.recs), TouchesOf(Site(cfg, fs, ck, extract), old(store.recs), q))
      ensures TouchesOf(Site(cfg, fs, ck, extract), old(store.recs), q) == [] ==> store.file == old(store.file)
      ensures reply == (if Succeeds(q) then Completed else RunFailed)
      ensures spec == CommandSpec(Shown(Order(), InputFor(cfg, q, w)), w)
      ensures WithinPolicy(cfg, fs, spec) && AsRequested(cfg, q, spec)
      ensures reply.Completed? && q.r.stream ==>
                resp.sent == Clip(q.room, EncodeAll(AllFrames(q.child.value, ReturnedId(InputFor(cfg, q, w)), extract)))
      ensures !q.r.stream ==> resp.sent == ""
    {
      var x := InputFor(cfg, q, w);
      AdmittedTouches(Site(cfg, fs, ck, extract), store.recs, q, w);
      SpecMeans(cfg, fs, store.recs, q, ck, w);
      var built := BuildArgs(x, ck);
      spec := CommandSpec(built.value.args, x.r.workdir);
      if q.r.stream {
        reply := RunStream(q, x, built.value, resp, extract, fault);
      } else {
        reply := RunOnce(q, x, built.value, fault);
      }
    }

    /**
     `handleRuns`, from the gates to the reply. The slot is held while the run or the stream lasts
     and given back on every way out, a vanished client included. The store changes by exactly the
     touch the request makes, if any, and the child is asked for with the command line of the
     request, in its canonical workdir.
     */
    method HandleRuns(q: Request, resp: Response, extract: Extract, ck: Checks, fault: Fault,
                      eval: EvalSymlinks, ghost fs: Fs)
      returns (reply: Reply, spec: Option<CommandSpec>)
      requires Resolves(eval, fs) && q.newId != ""
      requires q.slot ==> free > 0
      requires resp.room == q.room && resp.flushLimit == q.flushLimit && resp.At([], store.recs)
      modifies this, store, resp
      ensures free == old(free)
      ensures store.recs == UpdatedAll(old(store.recs), TouchesOf(Site(cfg, fs, ck, extract), old(store.recs), q))
      ensures TouchesOf(Site(cfg, fs, ck, extract), old(store.recs), q) == [] ==> store.file == old(store.file)
      ensures var g := Gates(cfg, fs, old(store.recs), q.r, ck);
              && (g.Err? ==> reply == Refused(g.error))
              && (g.Ok? && !q.slot ==> reply == Refused(Busy))
              && (g.Ok? && q.slot ==>
                    && reply == (if Succeeds(q) then Completed else RunFailed)
                    && spec == Some(CommandSpec(Shown(Order(), InputFor(cfg, q, g.value)), g.value)))
              && (g.Ok? && reply.Completed? && q.r.stream ==>
                    resp.sent == Clip(q.room, EncodeAll(
                      AllFrames(q.child.value, ReturnedId(InputFor(cfg, q, g.value)), extract))))
      ensures reply.Refused? <==> spec == None
      ensures Admissible(cfg, fs, old(store.recs), q.r, ck) <==> !reply.Refused? || reply.why == Busy
      ensures reply == Refused(Busy) ==> !q.slot
      ensures spec.Some? ==> WithinPolicy(cfg, fs, spec.value) && AsRequested(cfg, q, spec.value)
      ensures spec.Some? ==> forall wanted :: AsksFor(old(store.recs), q.r, wanted) ==>
                                                CanonicalForm(cfg, fs, wanted, spec.value.dir)
      ensures reply.Refused? || !q.r.stream ==> resp.sent == ""
    {
      spec := None;
      GatesMean(cfg, fs, store.recs, q.r, ck);
      var g := CheckGates(q.r, ck, eval, fs);
      if g.Err? {
        return Refused(g.error), spec;
      }
      if !q.slot {
        return Refused(Busy), spec;
      }
      free := free - 1;
      var asked: CommandSpec;
      reply, asked := RunAdmitted(q, g.value, resp, extract, ck, fault, fs);
      spec := Some(asked);
      free := free + 1;
    }
  }
}
