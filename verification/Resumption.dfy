/** Requests that overlap in any way, and where a later resume of a session runs. */
module Resumption {
  import opened Text
  import opened Allowlist
  import opened Sessions
  import opened Argv
  import opened EventStream
  import opened StreamDelivery
  import opened Handlers

  // ----- what a request records -----

  /** A request is recorded if it may run, has a slot, and, streamed, started and kept its client. */
  lemma RecordedWhen(s: Site, recs: Recs, q: Request)
    ensures TouchesOf(s, recs, q) != [] <==>
            && Admissible(s.cfg, s.fs, recs, q.r, s.ck) && q.slot
            && (q.r.stream ==>
                  q.child.Some? && Carries(q.room, q.flushLimit, Messages(ScannedLines(q.child.value))))
    ensures |TouchesOf(s, recs, q)| <= 1
  {
    GatesMean(s.cfg, s.fs, recs, q.r, s.ck);
  }

  /**
   The record says where and when the request ran, with its model, under the session it resumed or
   named or the new one; under the one the output names only if the last session was continued.
   */
  lemma RecordSays(s: Site, recs: Recs, q: Request, t: Touch)
    requires t in TouchesOf(s, recs, q) && q.newId != ""
    ensures GatesAt(s, recs, q) == Ok(t.workdir)
    ensures t.model == q.r.model && t.title == "" && t.now == q.now
    ensures q.r.resume != "" ==> t.id == q.r.resume
    ensures q.r.resume == "" && !q.r.continue_ ==> t.id == if q.r.sessionId != "" then q.r.sessionId else q.newId
    ensures q.r.continue_ && !q.r.stream ==> t.id == q.outcome.parsedId.GetOr("")
    ensures q.r.continue_ && q.r.stream ==>
              var lines := ScannedLines(q.child.value);
              FirstNamed(lines, s.extract, t.id) ||
              (t.id == "" && forall j :: 0 <= j < |lines| ==> lines[j] == "" || s.extract(lines[j]) == "")
  {
    var w := t.workdir;
    ValidatedIff(q.r, s.ck);
    if q.r.stream {
      RunIdSource(ReturnedId(InputFor(s.cfg, q, w)), ScannedLines(q.child.value), s.extract);
    }
  }

  // ----- overlapping requests -----

  /** The store, and what the requests under way are going to record. */
  datatype Ledger = Ledger(recs: Recs, pending: seq<Touch>)

  /**
   A request comes to the gates, or one under way ends and records its session. Refused requests, runs that
   fail to start and abandoned streams begin and leave nothing to record.
   */
  datatype Step = Begin(q: Request) | Finish(k: nat)

  ghost function Next(s: Site, l: Ledger, step: Step): Ledger {
    match step
    case Begin(q) => l.(pending := l.pending + TouchesOf(s, l.recs, q))
    case Finish(k) =>
      if k >= |l.pending| then l
      else Ledger(Updated(l.recs, l.pending[k]), l.pending[..k] + l.pending[k + 1..])
  }

  ghost function Run(s: Site, l: Ledger, steps: seq<Step>): Ledger
    decreases |steps|
  {
    if steps == [] then l else Run(s, Next(s, l, steps[0]), steps[1..])
  }

  function Recorded(l: Ledger, step: Step): seq<Touch> {
    if step.Finish? && step.k < |l.pending| then [l.pending[step.k]] else []
  }

  /** Everything recorded in a run, in the order of recording. */
  ghost function TouchLog(s: Site, l: Ledger, steps: seq<Step>): seq<Touch>
    decreases |steps|
  {
    if steps == [] then [] else Recorded(l, steps[0]) + TouchLog(s, Next(s, l, steps[0]), steps[1..])
  }

  /** A request that nothing overlaps: the two steps do what `handleRuns` does to the store. */
  lemma AloneAsHandled(s: Site, recs: Recs, q: Request)
    ensures Run(s, Ledger(recs, []), [Begin(q), Finish(0)]) ==
            Ledger(UpdatedAll(recs, TouchesOf(s, recs, q)), [])
  {
    var steps, ts := [Begin(q), Finish(0)], TouchesOf(s, recs, q);
    var l := Next(s, Ledger(recs, []), Begin(q));
    assert steps[1..] == [Finish(0)] && [Finish(0)][1..] == [];
    assert l == Ledger(recs, ts) by {
      assert [] + ts == ts;
    }
    assert Run(s, l, [Finish(0)]) == Next(s, l, Finish(0));
    if ts != [] {
      OneTouch(recs, ts[0]);
      assert ts == [ts[0]] && ts[..0] + ts[1..] == [];
    }
  }

  lemma {:induction false} RunConcat(s: Site, l: Ledger, a: seq<Step>, b: seq<Step>)
    ensures Run(s, l, a + b) == Run(s, Run(s, l, a), b)
    decreases |a|
  {
    if a == [] {
      assert a + b == b;
    } else {
      assert (a + b)[1..] == a[1..] + b;
      RunConcat(s, Next(s, l, a[0]), a[1..], b);
    }
  }

  // ----- what is recorded is acceptable -----

  /** No workdir, or one the server would accept again under the same name. */
  ghost predicate Accepted(s: Site, w: string) {
    w == "" || Validated(s.fs, s.cfg.roots, s.cfg.cwd, w) == Some(w)
  }

  ghost predicate RecordsAccepted(s: Site, recs: Recs) {
    forall id :: id in recs ==> Accepted(s, recs[id].workdir)
  }

  ghost predicate RunTouches(s: Site, ts: seq<Touch>) {
    forall i :: 0 <= i < |ts| ==> ts[i].workdir != "" && Accepted(s, ts[i].workdir)
  }

  /** What the gates let through is a canonical, non-empty, again acceptable workdir. */
  lemma AdmittedIsAccepted(s: Site, recs: Recs, q: Request)
    requires GatesAt(s, recs, q).Ok?
    ensures var w := GatesAt(s, recs, q).value; w != "" && Accepted(s, w)
  {
    AcceptedAgain(s.fs, s.cfg.roots, s.cfg.cwd, WantedWorkdir(recs, q.r));
  }

  lemma TouchesAccepted(s: Site, recs: Recs, q: Request)
    ensures RunTouches(s, TouchesOf(s, recs, q))
  {
    if GatesAt(s, recs, q).Ok? {
      AdmittedIsAccepted(s, recs, q);
    }
  }

  lemma RunTouchesConcat(s: Site, a: seq<Touch>, b: seq<Touch>)
    requires RunTouches(s, a) && RunTouches(s, b)
    ensures RunTouches(s, a + b)
  {
  }

  lemma StepKeepsTouches(s: Site, l: Ledger, step: Step)
    requires RunTouches(s, l.pending)
    ensures RunTouches(s, Next(s, l, step).pending) && RunTouches(s, Recorded(l, step))
    ensures Next(s, l, step).recs == UpdatedAll(l.recs, Recorded(l, step))
  {
    match step
    case Begin(q) =>
      TouchesAccepted(s, l.recs, q);
      RunTouchesConcat(s, l.pending, TouchesOf(s, l.recs, q));
    case Finish(k) =>
      if k < |l.pending| {
        OneTouch(l.recs, l.pending[k]);
        RunTouchesConcat(s, l.pending[..k], l.pending[k + 1..]);
      }
  }

  /**
   However requests overlap, the store is the sum of what was recorded, and every workdir recorded
   or still to be recorded is a canonical one the server accepts again.
   */
  lemma {:induction false} StoreIsTouchLog(s: Site, l: Ledger, steps: seq<Step>)
    requires RunTouches(s, l.pending)
    ensures Run(s, l, steps).recs == UpdatedAll(l.recs, TouchLog(s, l, steps))
    ensures RunTouches(s, TouchLog(s, l, steps)) && RunTouches(s, Run(s, l, steps).pending)
    decreases |steps|
  {
    if steps == [] {
    } else {
      StepKeepsTouches(s, l, steps[0]);
      StoreIsTouchLog(s, Next(s, l, steps[0]), steps[1..]);
      UpdatedAllConcat(l.recs, Recorded(l, steps[0]), TouchLog(s, Next(s, l, steps[0]), steps[1..]));
    }
  }

  lemma {:induction false} TouchesKeepAccepted(s: Site, recs: Recs, ts: seq<Touch>)
    requires RecordsAccepted(s, recs) && RunTouches(s, ts)
    ensures RecordsAccepted(s, UpdatedAll(recs, ts))
    decreases |ts|
  {
    if ts == [] {
    } else {
      TouchesKeepAccepted(s, Updated(recs, ts[0]), ts[1..]);
    }
  }

  /** On an unchanged tree, whatever requests are handled, every recorded workdir stays acceptable. */
  lemma RunsKeepRecordsAccepted(s: Site, l: Ledger, steps: seq<Step>)
    requires RecordsAccepted(s, l.recs) && RunTouches(s, l.pending)
    ensures RecordsAccepted(s, Run(s, l, steps).recs)
  {
    StoreIsTouchLog(s, l, steps);
    TouchesKeepAccepted(s, l.recs, TouchLog(s, l, steps));
  }

  // ----- resuming -----

  /** A resume that leaves the workdir to the server, and nothing else that a gate would refuse. */
  ghost predicate PlainResume(s: Site, r: RunRequest, id: string) {
    && id != "" && r.resume == id && r.workdir == ""
    && Validate(r, s.ck).None?
    && (r.permissionMode in {"bypassPermissions", "dontAsk"} ==> s.cfg.allowDangerous)
    && (r.bare ==> s.cfg.hasApiKey)
    && PluginsAllowed(s.cfg, s.fs, r.pluginDirs)
  }

  /** It is admitted in the recorded workdir, and whatever it records is that workdir under that id. */
  lemma ResumeRunsInRecordedWorkdir(s: Site, recs: Recs, q: Request, id: string)
    requires PlainResume(s, q.r, id) && id in recs
    requires recs[id].workdir != "" && Accepted(s, recs[id].workdir)
    ensures GatesAt(s, recs, q) == Ok(recs[id].workdir)
    ensures forall t :: t in TouchesOf(s, recs, q) ==> t.id == id && t.workdir == recs[id].workdir
  {
    if q.child.Some? {
      RunIdSource(id, ScannedLines(q.child.value), s.extract);
    }
  }

  lemma {:induction false} HistoryMembers(ts: seq<Touch>, id: string)
    ensures forall i :: 0 <= i < |HistoryOf(ts, id)| ==> HistoryOf(ts, id)[i] in ts && HistoryOf(ts, id)[i].id == id
  {
    if ts == [] {
    } else {
      HistoryMembers(ts[1..], id);
      assert forall t :: t in ts[1..] ==> t in ts;
    }
  }

  lemma LatestIsLast(h: seq<Touch>, start: string, v: string)
    requires h != [] && h[|h| - 1].workdir != "" && IsLatest(h, Workdir, start, v)
    ensures v == h[|h| - 1].workdir
  {
    assert Given(h[|h| - 1], Workdir) != "";
  }

  lemma RecordedIsLast(recs: Recs, ts: seq<Touch>, id: string)
    requires id != "" && HistoryOf(ts, id) != []
    requires forall i :: 0 <= i < |ts| ==> ts[i].workdir != ""
    ensures var h := HistoryOf(ts, id);
            id in UpdatedAll(recs, ts) && UpdatedAll(recs, ts)[id].workdir == h[|h| - 1].workdir
  {
    var h := HistoryOf(ts, id);
    StoreSummarisesHistory(recs, ts, id);
    HistoryMembers(ts, id);
    assert h[|h| - 1] in ts;
    var rec := UpdatedAll(recs, ts)[id];
    assert IsLatest(h, Workdir, StartOf(recs, id, Workdir), Kept(rec, Workdir));
    LatestIsLast(h, StartOf(recs, id, Workdir), rec.workdir);
  }

  /**
   From any store, after any requests in any overlap, streamed or not, refused, abandoned or
   completed: a resume of `id` without a workdir runs in W if and only if the request that was the
   last to record `id` ran in W.
   */
  lemma ResumeFollowsLastRun(s: Site, recs: Recs, steps: seq<Step>, q: Request, id: string)
    requires PlainResume(s, q.r, id)
    requires HistoryOf(TouchLog(s, Ledger(recs, []), steps), id) != []
    ensures var h := HistoryOf(TouchLog(s, Ledger(recs, []), steps), id);
            forall w :: GatesAt(s, Run(s, Ledger(recs, []), steps).recs, q) == Ok(w) <==> w == h[|h| - 1].workdir
  {
    var l := Ledger(recs, []);
    var log := TouchLog(s, l, steps);
    StoreIsTouchLog(s, l, steps);
    RecordedIsLast(recs, log, id);
    HistoryMembers(log, id);
    ResumeRunsInRecordedWorkdir(s, Run(s, l, steps).recs, q, id);
  }

  // ----- a session stays where it was created -----

  /** `id` is recorded in W, and every request under way that will record `id` runs in W. */
  ghost predicate Settled(s: Site, l: Ledger, id: string, w: string) {
    && w != "" && Accepted(s, w)
    && id in l.recs && l.recs[id].workdir == w
    && OnlyIn(l.pending, id, w)
  }

  ghost predicate OnlyIn(ts: seq<Touch>, id: string, w: string) {
    forall i :: 0 <= i < |ts| && ts[i].id == id ==> ts[i].workdir == w
  }

  /** A request that resumes `id` without naming a workdir, or records `id`, if at all, in W. */
  ghost predicate LeavesWorkdir(s: Site, recs: Recs, q: Request, id: string, w: string) {
    (q.r.resume == id && q.r.workdir == "") || OnlyIn(TouchesOf(s, recs, q), id, w)
  }

  ghost predicate AllLeaveWorkdir(s: Site, l: Ledger, steps: seq<Step>, id: string, w: string)
    decreases |steps|
  {
    steps == [] ||
    (&& (steps[0].Begin? ==> LeavesWorkdir(s, l.recs, steps[0].q, id, w))
     && AllLeaveWorkdir(s, Next(s, l, steps[0]), steps[1..], id, w))
  }

  ghost predicate AlwaysSettled(s: Site, l: Ledger, steps: seq<Step>, id: string, w: string)
    decreases |steps|
  {
    Settled(s, l, id, w) && (steps == [] || AlwaysSettled(s, Next(s, l, steps[0]), steps[1..], id, w))
  }

  /** The gates of a resume without a workdir canonicalise the recorded one, which changes nothing. */
  lemma ResumeKeepsWorkdir(s: Site, recs: Recs, q: Request, id: string, w: string)
    requires id != "" && id in recs && recs[id].workdir == w && w != "" && Accepted(s, w)
    ensures LeavesWorkdir(s, recs, q, id, w) <==> OnlyIn(TouchesOf(s, recs, q), id, w)
  {
  }

  lemma OnlyInConcat(a: seq<Touch>, b: seq<Touch>, id: string, w: string)
    ensures OnlyIn(a + b, id, w) <==> OnlyIn(a, id, w) && OnlyIn(b, id, w)
  {
    assert forall i :: 0 <= i < |a| ==> a[i] == (a + b)[i];
    assert forall i :: 0 <= i < |b| ==> b[i] == (a + b)[|a| + i];
  }

  lemma SettledStep(s: Site, l: Ledger, step: Step, id: string, w: string)
    requires id != "" && Settled(s, l, id, w)
    ensures Settled(s, Next(s, l, step), id, w) <==> (step.Begin? ==> LeavesWorkdir(s, l.recs, step.q, id, w))
  {
    match step
    case Begin(q) =>
      ResumeKeepsWorkdir(s, l.recs, q, id, w);
      OnlyInConcat(l.pending, TouchesOf(s, l.recs, q), id, w);
    case Finish(k) =>
      if k < |l.pending| {
        FinishSettled(l, k, id, w);
      }
  }

  lemma FinishSettled(l: Ledger, k: nat, id: string, w: string)
    requires id != "" && k < |l.pending| && OnlyIn(l.pending, id, w) && w != ""
    requires l.pending[k].id == id || (id in l.recs && l.recs[id].workdir == w)
    ensures var recs := Updated(l.recs, l.pending[k]);
            && id in recs && recs[id].workdir == w
            && OnlyIn(l.pending[..k] + l.pending[k + 1..], id, w)
  {
  }

  /** A settled session stays in W throughout if and only if every later request leaves it there. */
  lemma {:induction false} SessionStaysInWorkdir(s: Site, l: Ledger, steps: seq<Step>, id: string, w: string)
    requires id != "" && Settled(s, l, id, w)
    ensures AlwaysSettled(s, l, steps, id, w) <==> AllLeaveWorkdir(s, l, steps, id, w)
    ensures AlwaysSettled(s, l, steps, id, w) ==> Settled(s, Run(s, l, steps), id, w)
    decreases |steps|
  {
    if steps == [] {
    } else {
      SettledStep(s, l, steps[0], id, w);
      if Settled(s, Next(s, l, steps[0]), id, w) {
        SessionStaysInWorkdir(s, Next(s, l, steps[0]), steps[1..], id, w);
      }
    }
  }

  /**
   The promise of the store. A request of `before` ends that ran on `id` in W, and nothing else
   under way on `id` runs elsewhere. Then come any requests, overlapping, of which those that
   record `id` do so in W; a resume that names no workdir always does. A resume of `id` still
   starts the child in W, with W and `id` on its command line.
   */
  lemma ResumeRunsWhereCreated(
      s: Site, recs: Recs, before: seq<Step>, k: nat, later: seq<Step>, q: Request, id: string, w: string)
    returns (d: Decoded)
    requires PlainResume(s, q.r, id)
    requires var l := Run(s, Ledger(recs, []), before);
             && k < |l.pending| && l.pending[k].id == id && OnlyIn(l.pending, id, w)
             && AllLeaveWorkdir(s, Next(s, l, Finish(k)), later, id, w)
    ensures GatesAt(s, Run(s, Ledger(recs, []), before + [Finish(k)] + later).recs, q) == Ok(w)
    ensures Decode(Shown(Order(), InputFor(s.cfg, q, w))) == Some(d)
    ensures d.limits.addDir == w && d.session.resume == id && !d.session.continue_ && d.session.sessionId == ""
  {
    var start := Ledger(recs, []);
    var l, m := Run(s, start, before), Run(s, start, before + [Finish(k)]);
    StoreIsTouchLog(s, start, before);
    FinishSettled(l, k, id, w);
    RunConcat(s, start, before, [Finish(k)]);
    assert [Finish(k)][1..] == [];
    assert m == Next(s, l, Finish(k));
    RunConcat(s, start, before + [Finish(k)], later);
    SessionStaysInWorkdir(s, m, later, id, w);
    ResumeRunsInRecordedWorkdir(s, Run(s, m, later).recs, q, id);
    DecodeBuilt(InputFor(s.cfg, q, w));
    d := Normalised(InputFor(s.cfg, q, w));
  }

  /** The plainest case: whatever is in the store, a request that records its session, then its resume. */
  lemma ResumeAfterRun(s: Site, recs: Recs, first: Request, q: Request)
    requires TouchesOf(s, recs, first) != []
    requires PlainResume(s, q.r, TouchesOf(s, recs, first)[0].id)
    ensures GatesAt(s, UpdatedAll(recs, TouchesOf(s, recs, first)), q) == GatesAt(s, recs, first)
  {
    var t, l := TouchesOf(s, recs, first)[0], Next(s, Ledger(recs, []), Begin(first));
    assert l.pending == TouchesOf(s, recs, first) == [t];
    assert [Begin(first)][1..] == [] && Run(s, Ledger(recs, []), [Begin(first)]) == l;
    assert [Begin(first)] + [Finish(0)] + [] == [Begin(first), Finish(0)];
    var _ := ResumeRunsWhereCreated(s, recs, [Begin(first)], 0, [], q, t.id, t.workdir);
    AloneAsHandled(s, recs, first);
  }
}
