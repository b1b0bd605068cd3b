/** Sessions across restarts: the store file is there so that they keep their workdirs. */
module Restart {
  import opened Text
  import opened Sessions
  import opened StoreCrash
  import R = Resumption
  import H = Handlers

  // ----- what a saved session survives -----

  predicate RecordsIn(recs: Recs, id: string, w: string) {
    id in recs && recs[id].workdir == w
  }

  /** Every image that can still reach memory or the file has `id` in W. */
  ghost predicate Saved(s: State, id: string, w: string) {
    && InodesOk(s)
    && RecordsIn(s.recs, id, w)
    && (forall pid :: pid in s.flight ==> RecordsIn(s.flight[pid].snap, id, w))
    && Read(s, s.file).Whole? && RecordsIn(Read(s, s.file).recs, id, w)
    && (Read(s, s.tmp).Whole? ==> RecordsIn(Read(s, s.tmp).recs, id, w))
  }

  /** The Upserts of `id` that name a workdir name W. */
  predicate UpsertsIn(steps: seq<Step>, id: string, w: string) {
    forall i :: 0 <= i < |steps| && steps[i].Begin? && steps[i].touch.id == id ==> steps[i].touch.workdir in {"", w}
  }

  lemma SavedStep(s: State, step: Step, id: string, w: string)
    requires Saved(s, id, w) && Enabled(s, step) && !Damaging(s, step)
    requires step.Begin? && step.touch.id == id ==> step.touch.workdir in {"", w}
    ensures Saved(Next(s, step), id, w)
  {
    StepKeepsInodes(s, step);
  }

  lemma {:induction false} SavedRun(s: State, steps: seq<Step>, id: string, w: string)
    requires Saved(s, id, w) && ValidRun(s, steps) && NeverDamaging(s, steps) && UpsertsIn(steps, id, w)
    ensures Saved(Final(s, steps), id, w)
    decreases |steps|
  {
    if steps == [] {
    } else {
      SavedStep(s, steps[0], id, w);
      assert forall i :: 0 <= i < |steps[1..]| ==> steps[1..][i] == steps[i + 1];
      SavedRun(Next(s, steps[0]), steps[1..], id, w);
    }
  }

  /** A successful serial Upsert of `id` in W saves it. */
  lemma SerialUpsertSaves(
      file: Content, tmp: Content, before: seq<Step>, pid: Pid, t: Touch, during: seq<Step>)
    requires SerialDaemon(file, tmp, before) && t.workdir != ""
    requires var s := Final(Opened(file, tmp), before);
             s.flight == map[] && Enabled(s, Begin(pid, t)) && ValidRun(Next(s, Begin(pid, t)), during)
    requires OneUpsert(during)
    requires Enabled(Final(Next(Final(Opened(file, tmp), before), Begin(pid, t)), during), Rename(pid))
    ensures var e := Final(Next(Final(Opened(file, tmp), before), Begin(pid, t)), during);
            Saved(Next(e, Rename(pid)), t.id, t.workdir)
  {
    SerialRunIsDurable(file, tmp, before);
    var s := Final(Opened(file, tmp), before);
    SerialStep(s, Begin(pid, t));
    DurableIsOldOrNew(Next(s, Begin(pid, t)), s.durable, during);
    var e := Final(Next(s, Begin(pid, t)), during);
    assert SerialPhase(e, pid);
    RenameSaves(e, pid, t.id, t.workdir);
  }

  lemma RenameSaves(e: State, pid: Pid, id: string, w: string)
    requires SerialInv(e) && Enabled(e, Rename(pid)) && RecordsIn(e.recs, id, w)
    ensures Saved(Next(e, Rename(pid)), id, w)
  {
    assert SerialPhase(e, pid);
    SerialStep(e, Rename(pid));
  }

  /**
   The point of the store file. A request admitted in W has its Upsert of `id` published, without
   overlap up to then. Whatever comes later that does not damage the file and records `id` only in
   W, overlapping Upserts, failures and crashes included: a restart succeeds, and before it and
   after it a resume of `id` without a workdir is admitted in W.
   */
  lemma ResumeSurvivesRestart(
      site: H.Site, admitted: Recs, first: H.Request, t: Touch,
      file: Content, tmp: Content, before: seq<Step>, pid: Pid, during: seq<Step>, later: seq<Step>, q: H.Request)
    requires H.TouchesOf(site, admitted, first) == [t] && R.PlainResume(site, q.r, t.id)
    requires SerialDaemon(file, tmp, before)
    requires var s := Final(Opened(file, tmp), before);
             s.flight == map[] && Enabled(s, Begin(pid, t)) && ValidRun(Next(s, Begin(pid, t)), during)
    requires OneUpsert(during)
    requires Enabled(Final(Next(Final(Opened(file, tmp), before), Begin(pid, t)), during), Rename(pid))
    requires var e := Next(Final(Next(Final(Opened(file, tmp), before), Begin(pid, t)), during), Rename(pid));
             ValidRun(e, later) && NeverDamaging(e, later) && UpsertsIn(later, t.id, t.workdir)
    ensures var e := Next(Final(Next(Final(Opened(file, tmp), before), Begin(pid, t)), during), Rename(pid));
            var f := Final(e, later);
            && H.GatesAt(site, f.recs, q) == Ok(t.workdir)
            && Enabled(f, Crash) && H.GatesAt(site, Next(f, Crash).recs, q) == Ok(t.workdir)
  {
    var e := Next(Final(Next(Final(Opened(file, tmp), before), Begin(pid, t)), during), Rename(pid));
    R.AdmittedIsAccepted(site, admitted, first);
    SerialUpsertSaves(file, tmp, before, pid, t, during);
    SavedRun(e, later, t.id, t.workdir);
    ResumeOfSaved(site, Final(e, later), q, t.id, t.workdir);
  }

  lemma ResumeOfSaved(site: H.Site, s: State, q: H.Request, id: string, w: string)
    requires Saved(s, id, w) && R.PlainResume(site, q.r, id) && w != "" && R.Accepted(site, w)
    ensures H.GatesAt(site, s.recs, q) == Ok(w)
    ensures Enabled(s, Crash) && H.GatesAt(site, Next(s, Crash).recs, q) == Ok(w)
  {
    R.ResumeRunsInRecordedWorkdir(site, s.recs, q, id);
    R.ResumeRunsInRecordedWorkdir(site, Next(s, Crash).recs, q, id);
  }
}
