/** Page, network, server and store together: the second message of a conversation. */
module Conversation {
  import opened Text
  import opened Sessions
  import opened Argv
  import opened EventFormat
  import opened EventClient
  import opened EventStream
  import opened StreamDelivery
  import opened Handlers
  import opened Resumption

  /** What the form of the page holds when a message is sent. */
  datatype Form = Form(prompt: string, model: string, workdir: string, stream: bool, edits: bool)

  /**
   `buildBody`: resume the known session without a workdir, or start one in the given workdir. A
   session known by a value that is no text makes a body the server cannot decode.
   */
  function NextRequest(v: View, f: Form): Option<RunRequest> {
    if v.sessionId.OtherId? then None
    else
      var known := if v.sessionId.TextId? then v.sessionId.text else "";
      Some(RunRequest(
             f.prompt, if known != "" then "" else Trim(JsBlanks, f.workdir), f.model, false,
             "", known, false,
             "", f.stream,
             if f.edits then "acceptEdits" else "", "",
             0, Zero,
             "", "",
             None, false, None, None,
             false, "", "", "",
             [], []))
  }

  lemma NextIsPlainResume(s: Site, v: View, id: string, f: Form)
    requires v.sessionId == TextId(id) && id != "" && s.ck.isUuid(id) && f.prompt != ""
    ensures NextRequest(v, f).Some? && PlainResume(s, NextRequest(v, f).value, id)
  {
    var mode := NextRequest(v, f).value.permissionMode;
    assert mode != "" ==> mode[0] == 'a';
    assert "bypassPermissions"[0] == 'b' && "dontAsk"[0] == 'd';
  }

  /**
   The first message of a conversation is admitted if and only if the trimmed workdir of the form,
   made canonical, lies under a root, and runs there, with the prompt and settings of the form.
   */
  lemma FirstMessage(s: Site, recs: Recs, v: View, f: Form)
    requires v.sessionId == NoId && f.prompt != ""
    ensures NextRequest(v, f).Some?
    ensures var r, dir := NextRequest(v, f).value, Trim(JsBlanks, f.workdir);
            && (Gates(s.cfg, s.fs, recs, r, s.ck).Ok? <==> dir != "" && LiesUnderRoot(s.cfg, s.fs, dir))
            && (forall w :: Gates(s.cfg, s.fs, recs, r, s.ck) == Ok(w) ==> CanonicalForm(s.cfg, s.fs, dir, w))
            && r.prompt == f.prompt && r.model == f.model && r.stream == f.stream
            && r.permissionMode == (if f.edits then "acceptEdits" else "") && r.resume == "" && !r.continue_
  {
    var r, dir := NextRequest(v, f).value, Trim(JsBlanks, f.workdir);
    assert r.permissionMode != "" ==> r.permissionMode[0] == 'a';
    assert "bypassPermissions"[0] == 'b' && "dontAsk"[0] == 'd';
    assert forall wanted :: AsksFor(recs, r, wanted) <==> wanted == dir && dir != "";
    GatesMean(s.cfg, s.fs, recs, r, s.ck);
  }

  /** A later message says the same, and resumes the session instead of naming a workdir. */
  lemma LaterMessage(v: View, id: string, f: Form)
    requires v.sessionId == TextId(id) && id != ""
    ensures NextRequest(v, f).Some?
    ensures var r := NextRequest(v, f).value;
            && r.resume == id && r.workdir == "" && r.sessionId == "" && !r.continue_ && !r.fork
            && r.prompt == f.prompt && r.model == f.model && r.stream == f.stream
            && r.permissionMode == if f.edits then "acceptEdits" else ""
  {
  }

  /** What a streamed request that records something has been through. */
  lemma StreamedTouch(s: Site, recs: Recs, q: Request, t: Touch)
    requires q.r.stream && TouchesOf(s, recs, q) == [t]
    ensures GatesAt(s, recs, q) == Ok(t.workdir) && t.workdir != "" && Accepted(s, t.workdir)
    ensures q.child.Some? && t == StreamTouch(s.cfg, q, t.workdir, q.child.value, s.extract)
  {
    AdmittedIsAccepted(s, recs, q);
  }

  /** The page's half: having received the whole response, it knows the id and can resume. */
  lemma PageKnowsSession(
      c: Child, pinned: string, extract: Extract, chunks: seq<string>, before: View, json: JsonParse)
    returns (after: Handling)
    requires ReadsFlatObjects(json) && RunId(c, pinned, extract) != ""
    requires !BreaksSomewhere(before, Visible(ScannedLines(c)), json)
    requires Concat(chunks) == EncodeAll(AllFrames(c, pinned, extract))
    ensures after == ApplyAll(before, ClientEvents(Concat(chunks)), json)
    ensures !after.threw && after.view.sessionId == TextId(RunId(c, pinned, extract))
  {
    RunIsDelivered(c, pinned, extract, chunks);
    PageLearnsOutcome(c, pinned, extract, before, json);
    after := ApplyAll(before, Expected(c, pinned, extract), json);
  }

  /** The server's half: whatever follows, a plain resume of that session runs where it ran. */
  lemma ServerKeepsSession(
      s: Site, admitted: Recs, q: Request, l: Ledger, k: nat, later: seq<Step>, r: RunRequest)
    requires k < |l.pending| && q.r.stream && TouchesOf(s, admitted, q) == [l.pending[k]]
    requires var t := l.pending[k];
             && PlainResume(s, r, t.id) && OnlyIn(l.pending, t.id, t.workdir)
             && AllLeaveWorkdir(s, Next(s, l, Finish(k)), later, t.id, t.workdir)
    ensures Gates(s.cfg, s.fs, Run(s, Next(s, l, Finish(k)), later).recs, r, s.ck) == Ok(l.pending[k].workdir)
  {
    var t := l.pending[k];
    StreamedTouch(s, admitted, q, t);
    FinishSettled(l, k, t.id, t.workdir);
    SessionStaysInWorkdir(s, Next(s, l, Finish(k)), later, t.id, t.workdir);
    ResumeAdmitted(s, Run(s, Next(s, l, Finish(k)), later), r, t.id, t.workdir);
  }

  /**
   A streamed run of a session ends in the ledger as entry `k`, and the page received the whole
   response, cut into whatever chunks. If no line of the child makes the page break off, the page
   then knows the recorded session id. Whatever requests follow, overlapping, of which those that
   record the session do so in the same workdir: the page's next message is admitted, and runs
   where the session was created. Framing, parsing, the learned id, the sticky record and
   canonicalisation together.
   */
  lemma FollowUpRunsInSameWorkdir(
      s: Site, admitted: Recs, q: Request, l: Ledger, k: nat, later: seq<Step>,
      chunks: seq<string>, before: View, f: Form, json: JsonParse)
    returns (after: Handling)
    requires ReadsFlatObjects(json) && f.prompt != ""
    requires k < |l.pending| && q.r.stream && TouchesOf(s, admitted, q) == [l.pending[k]]
    requires var t := l.pending[k];
             && t.id != "" && s.ck.isUuid(t.id) && OnlyIn(l.pending, t.id, t.workdir)
             && AllLeaveWorkdir(s, Next(s, l, Finish(k)), later, t.id, t.workdir)
    requires q.child.Some? && !BreaksSomewhere(before, Visible(ScannedLines(q.child.value)), json)
    requires Concat(chunks) == EncodeAll(AllFrames(
               q.child.value, ReturnedId(InputFor(s.cfg, q, l.pending[k].workdir)), s.extract))
    ensures after == ApplyAll(before, ClientEvents(Concat(chunks)), json)
    ensures !after.threw && after.view.sessionId == TextId(l.pending[k].id)
    ensures NextRequest(after.view, f).Some?
    ensures Gates(s.cfg, s.fs, Run(s, Next(s, l, Finish(k)), later).recs, NextRequest(after.view, f).value, s.ck)
            == Ok(l.pending[k].workdir)
  {
    var t := l.pending[k];
    StreamedTouch(s, admitted, q, t);
    var pinned := ReturnedId(InputFor(s.cfg, q, t.workdir));
    after := PageKnowsSession(q.child.value, pinned, s.extract, chunks, before, json);
    NextIsPlainResume(s, after.view, t.id, f);
    ServerKeepsSession(s, admitted, q, l, k, later, NextRequest(after.view, f).value);
  }

  lemma ResumeAdmitted(s: Site, l: Ledger, r: RunRequest, id: string, w: string)
    requires PlainResume(s, r, id) && Settled(s, l, id, w)
    ensures Gates(s.cfg, s.fs, l.recs, r, s.ck) == Ok(w)
  {
  }
}
