/** How a complete response ends, told by the child's own fate: what failed, and what the page makes of it. */
module StreamEnds {
  import opened Text
  import opened JsonText
  import opened EventFormat
  import opened EventClient
  import opened EventStream
  import opened StreamDelivery

  // ----- the closing events -----

  /** Reading the output broke, or the child did. */
  predicate WentWrong(c: Child) {
    !c.end.Eof? || !c.exit.ExitOk?
  }

  /** At most 2000 characters, an ellipsis standing for the rest. */
  predicate Shortened(text: string, reason: string) {
    && (|text| <= 2000 ==> reason == text)
    && (|text| > 2000 ==> |reason| == 2001 && reason[..2000] == text[..2000] && reason[2000] == '\U{2026}')
  }

  /** A reading error comes before the exit status, and in full; the rest is shortened. */
  predicate SaysWhy(c: Child, reason: string) {
    && (c.end.ReadError? ==> reason == c.end.message)
    && (c.end.TooLong? ==> reason == "bufio.Scanner: token too long")
    && (c.end.Eof? && c.exit.ExitFailed? ==> Shortened(c.exit.stderr, reason))
    && (c.end.Eof? && c.exit.WaitFailed? ==> Shortened(c.exit.message, reason))
  }

  lemma FailureMeans(c: Child)
    ensures Failure(c).Some? <==> WentWrong(c)
    ensures Failure(c).Some? ==> SaysWhy(c, Failure(c).value)
  {
  }

  /** The events of a complete response: messages, an error with its reason if anything failed, one done. */
  ghost predicate EndsWith(es: seq<Event>, c: Child, id: string) {
    var n := |es|;
    && n > 0 && es[n - 1].name == "done" && ReadObject(es[n - 1].data) == Some([Member("session_id", id)])
    && (WentWrong(c) ==>
          && n > 1 && es[n - 2].name == "error" && IsReason(es[n - 2].data, c, id)
          && forall i :: 0 <= i < n - 2 ==> es[i].name == "message")
    && (!WentWrong(c) ==> forall i :: 0 <= i < n - 1 ==> es[i].name == "message")
  }

  ghost predicate IsReason(data: string, c: Child, id: string) {
    exists reason :: SaysWhy(c, reason) && ReadObject(data) == Some([Member("error", reason), Member("session_id", id)])
  }

  lemma ReasonRead(c: Child, id: string)
    requires Failure(c).Some?
    ensures IsReason(ErrorData(Failure(c).value, id), c, id)
  {
    var reason := Failure(c).value;
    FailureMeans(c);
    MarshalRoundTrip([Member("error", reason), Member("session_id", id)]);
    assert SaysWhy(c, reason);
  }

  lemma ClosingOf(c: Child, id: string)
    ensures Closing(Failure(c), id) ==
            (if Failure(c).Some? then [Event("error", ErrorData(Failure(c).value, id))] else [])
            + [Event("done", DoneData(id))]
  {
  }

  lemma ClosedOff(messages: seq<Event>, e: Event, done: Event, c: Child, id: string)
    requires AllMessages(messages) && done.name == "done" && ReadObject(done.data) == Some([Member("session_id", id)])
    requires WentWrong(c) ==> e.name == "error" && IsReason(e.data, c, id)
    ensures EndsWith(messages + ((if WentWrong(c) then [e] else []) + [done]), c, id)
  {
    var es := messages + ((if WentWrong(c) then [e] else []) + [done]);
    assert forall i :: 0 <= i < |messages| ==> es[i] == messages[i];
  }

  /**
   Over every child and every chunking: an error event comes if and only if reading the output or the
   child failed, and names what failed first; then one done event, with the run's id.
   */
  lemma ResponseEndsWith(c: Child, pinned: string, extract: Extract, chunks: seq<string>)
    requires Concat(chunks) == EncodeAll(AllFrames(c, pinned, extract))
    ensures EndsWith(ClientEvents(Concat(chunks)), c, RunId(c, pinned, extract))
  {
    var id := RunId(c, pinned, extract);
    RunIsDelivered(c, pinned, extract, chunks);
    VisibleAreMessages(ScannedLines(c));
    FailureMeans(c);
    ClosingOf(c, id);
    MarshalRoundTrip([Member("session_id", id)]);
    if Failure(c).Some? {
      ReasonRead(c, id);
    }
    ClosedOff(Visible(ScannedLines(c)), Event("error", ErrorData(Failure(c).GetOr(""), id)),
              Event("done", DoneData(id)), c, id);
  }

  ghost predicate HoldsError(es: seq<Event>) {
    exists i :: 0 <= i < |es| && es[i].name == "error"
  }

  lemma ErrorAmong(es: seq<Event>, c: Child, id: string)
    requires EndsWith(es, c, id)
    ensures HoldsError(es) <==> WentWrong(c)
  {
    assert "error"[0] == 'e' && "done"[0] == 'd' && "message"[0] == 'm';
    if WentWrong(c) {
      assert es[|es| - 2].name == "error";
    }
  }

  /** An error event appears exactly when something went wrong. */
  lemma ErrorEventIff(c: Child, pinned: string, extract: Extract, chunks: seq<string>)
    requires Concat(chunks) == EncodeAll(AllFrames(c, pinned, extract))
    ensures HoldsError(ClientEvents(Concat(chunks))) <==> !c.end.Eof? || !c.exit.ExitOk?
  {
    ResponseEndsWith(c, pinned, extract, chunks);
    ErrorAmong(ClientEvents(Concat(chunks)), c, RunId(c, pinned, extract));
  }

  // ----- what the page shows as the result -----

  /** The data of a result message. */
  predicate IsResult(e: Event, json: JsonParse) {
    match json(e.data)
    case Some(Obj(c)) => c.kind == "result"
    case _ => false
  }

  lemma ResultStep(v: View, e: Event, json: JsonParse)
    requires e.name == "message" && !Apply(v, e, json).threw
    ensures Apply(v, e, json).view.result == if IsResult(e, json) then FromMessage(e.data) else v.result
  {
  }

  ghost predicate LastResult(es: seq<Event>, json: JsonParse, i: int) {
    0 <= i < |es| && IsResult(es[i], json) && forall j :: i < j < |es| ==> !IsResult(es[j], json)
  }

  /** The last result message among messages is the result shown. */
  lemma {:induction false} LastResultWins(v: View, es: seq<Event>, json: JsonParse)
    requires AllMessages(es) && !ApplyAll(v, es, json).threw
    ensures (forall i :: 0 <= i < |es| ==> !IsResult(es[i], json)) ==> ApplyAll(v, es, json).view.result == v.result
    ensures forall i :: LastResult(es, json, i) ==> ApplyAll(v, es, json).view.result == FromMessage(es[i].data)
    decreases |es|
  {
    if es == [] {
    } else {
      var w, more := Apply(v, es[0], json).view, es[1..];
      ResultStep(v, es[0], json);
      LastResultWins(w, more, json);
      assert forall j :: 0 < j < |es| ==> es[j] == more[j - 1];
      forall i | LastResult(es, json, i)
        ensures ApplyAll(v, es, json).view.result == FromMessage(es[i].data)
      {
        if i > 0 {
          assert LastResult(more, json, i - 1);
        } else {
          assert forall j :: 0 <= j < |more| ==> more[j] == es[j + 1];
        }
      }
    }
  }

  /**
   What the page shows as the result of a complete response that did not make it break off: the
   reason if anything went wrong, else the last result message of the child, if there is one.
   */
  lemma PageTellsOutcome(c: Child, pinned: string, extract: Extract, chunks: seq<string>, v: View, json: JsonParse)
    requires ReadsFlatObjects(json) && Concat(chunks) == EncodeAll(AllFrames(c, pinned, extract))
    requires !BreaksSomewhere(v, Visible(ScannedLines(c)), json)
    ensures var lines, result := Visible(ScannedLines(c)), ApplyAll(v, ClientEvents(Concat(chunks)), json).view.result;
            && (WentWrong(c) ==>
                  result.Failed? && (SaysWhy(c, result.reason) || (SaysWhy(c, "") && result.reason == "erro")))
            && (!WentWrong(c) ==>
                  && (forall i :: LastResult(lines, json, i) ==> result == FromMessage(lines[i].data))
                  && ((forall i :: 0 <= i < |lines| ==> !IsResult(lines[i], json)) ==> result == v.result))
  {
    var lines := Visible(ScannedLines(c));
    RunIsDelivered(c, pinned, extract, chunks);
    PageLearnsOutcome(c, pinned, extract, v, json);
    VisibleAreMessages(ScannedLines(c));
    BreaksOffIff(v, lines, json);
    LastResultWins(v, lines, json);
    ResultOf(c, ApplyAll(v, lines, json).view, RunId(c, pinned, extract));
  }

  lemma ResultOf(c: Child, u: View, id: string)
    ensures var result := WithId(if Failure(c).None? then u else u.(result := ReasonOf(Failure(c).value)), id).result;
            && (!WentWrong(c) ==> result == u.result)
            && (WentWrong(c) ==>
                  result.Failed? && (SaysWhy(c, result.reason) || (SaysWhy(c, "") && result.reason == "erro")))
  {
    FailureMeans(c);
  }

  /** The plainest case: a child that fails with something on stderr. */
  lemma StderrReachesPage(stdout: string, stderr: string, pinned: string, extract: Extract, chunks: seq<string>,
                          v: View, json: JsonParse)
    requires ReadsFlatObjects(json) && 0 < |stderr|
    requires var c := Child(stdout, Eof, ExitFailed(stderr));
             && Concat(chunks) == EncodeAll(AllFrames(c, pinned, extract))
             && !BreaksSomewhere(v, Visible(ScannedLines(c)), json)
    ensures ApplyAll(v, ClientEvents(Concat(chunks)), json).view.result ==
            Failed(if |stderr| <= 2000 then stderr else stderr[..2000] + "\U{2026}")
  {
    var c := Child(stdout, Eof, ExitFailed(stderr));
    PageTellsOutcome(c, pinned, extract, chunks, v, json);
    EmptySaysNothing(stdout, stderr);
    StderrSaid(stdout, stderr, ApplyAll(v, ClientEvents(Concat(chunks)), json).view.result.reason);
  }

  lemma EmptySaysNothing(stdout: string, stderr: string)
    requires stderr != ""
    ensures !SaysWhy(Child(stdout, Eof, ExitFailed(stderr)), "")
  {
  }

  lemma StderrSaid(stdout: string, stderr: string, reason: string)
    requires SaysWhy(Child(stdout, Eof, ExitFailed(stderr)), reason)
    ensures reason == if |stderr| <= 2000 then stderr else stderr[..2000] + "\U{2026}"
  {
    assert |stderr| > 2000 ==> reason == reason[..2000] + [reason[2000]];
  }

  // ----- which session the page knows -----

  function NameOf(e: Event, json: JsonParse): IdField {
    match json(e.data)
    case Some(Obj(c)) => c.sessionId
    case _ => NoId
  }

  ghost predicate FirstName(es: seq<Event>, json: JsonParse, i: int) {
    0 <= i < |es| && !NameOf(es[i], json).NoId? && forall j :: 0 <= j < i ==> NameOf(es[j], json).NoId?
  }

  lemma NameStep(v: View, e: Event, json: JsonParse)
    requires e.name == "message" && !Apply(v, e, json).threw
    ensures Apply(v, e, json).view.sessionId == if v.sessionId.NoId? then NameOf(e, json) else v.sessionId
  {
  }

  /** Among messages a known session stays, and an unknown one is the first that a message names. */
  lemma {:induction false} FirstNameStays(v: View, es: seq<Event>, json: JsonParse)
    requires AllMessages(es) && !ApplyAll(v, es, json).threw
    ensures !v.sessionId.NoId? ==> ApplyAll(v, es, json).view.sessionId == v.sessionId
    ensures (forall i :: 0 <= i < |es| ==> NameOf(es[i], json).NoId?) ==>
              ApplyAll(v, es, json).view.sessionId == v.sessionId
    ensures v.sessionId.NoId? ==>
              forall i :: FirstName(es, json, i) ==> ApplyAll(v, es, json).view.sessionId == NameOf(es[i], json)
    decreases |es|
  {
    if es == [] {
    } else {
      var w, more := Apply(v, es[0], json).view, es[1..];
      NameStep(v, es[0], json);
      FirstNameStays(w, more, json);
      assert forall j :: 0 <= j < |more| ==> more[j] == es[j + 1];
      if v.sessionId.NoId? {
        forall i | FirstName(es, json, i)
          ensures ApplyAll(v, es, json).view.sessionId == NameOf(es[i], json)
        {
          if i > 0 {
            assert es[i] == more[i - 1] && FirstName(more, json, i - 1);
          }
        }
      }
    }
  }
}
