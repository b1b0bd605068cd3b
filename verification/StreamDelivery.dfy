/** Server and page together: what a streaming run makes the page see. */
module StreamDelivery {
  import opened Text
  import opened JsonText
  import opened EventFormat
  import opened MessageContent
  import opened EventClient
  import opened EventStandard
  import opened EventStream

  // ----- the scanner -----

  /** A line of output as the child writes it: its text and whether it ends in CR LF or LF. */
  datatype Line = Line(text: string, crLf: bool)

  /** A CR before an LF belongs to the line end; further ones belong to the text. */
  predicate ProperLine(l: Line) {
    '\n' !in l.text && (!l.crLf ==> DropCr(l.text) == l.text)
  }

  function Raw(l: Line): string {
    l.text + (if l.crLf then "\r" else "")
  }

  function Written(ls: seq<Line>): string {
    if ls == [] then "" else Raw(ls[0]) + ['\n'] + Written(ls[1..])
  }

  function Texts(ls: seq<Line>): seq<string> {
    if ls == [] then [] else [ls[0].text] + Texts(ls[1..])
  }

  function Raws(ls: seq<Line>): seq<string> {
    if ls == [] then [] else [Raw(ls[0])] + Raws(ls[1..])
  }

  lemma RawLine(l: Line)
    requires ProperLine(l)
    ensures '\n' !in Raw(l) && DropCr(Raw(l)) == l.text
  {
    assert (l.text + "\r")[..|l.text|] == l.text;
  }

  lemma {:induction false} SplitWritten(ls: seq<Line>, last: string)
    requires forall i :: 0 <= i < |ls| ==> ProperLine(ls[i])
    requires '\n' !in last
    ensures Split(Written(ls) + last, '\n') == Raws(ls) + [last]
  {
    if ls == [] {
      assert Written(ls) + last == last;
      SplitSingle(last, '\n');
    } else {
      SplitWritten(ls[1..], last);
      RawLine(ls[0]);
      assert Written(ls) + last == Raw(ls[0]) + ['\n'] + (Written(ls[1..]) + last);
      SplitStep(Raw(ls[0]), '\n', Written(ls[1..]) + last);
    }
  }

  lemma {:induction false} DropCrsConcat(a: seq<string>, b: seq<string>)
    ensures DropCrs(a + b) == DropCrs(a) + DropCrs(b)
  {
    if a == [] {
      assert a + b == b;
    } else {
      assert (a + b)[1..] == a[1..] + b;
      DropCrsConcat(a[1..], b);
    }
  }

  lemma {:induction false} DropCrsOfRaws(ls: seq<Line>)
    requires forall i :: 0 <= i < |ls| ==> ProperLine(ls[i])
    ensures DropCrs(Raws(ls)) == Texts(ls)
  {
    if ls == [] {
    } else {
      DropCrsOfRaws(ls[1..]);
      RawLine(ls[0]);
    }
  }

  lemma LastLine(last: string, counts: bool)
    ensures DropCrs(if counts then [last] else []) == if counts then [DropCr(last)] else []
  {
    assert [last][1..] == [];
  }

  /** Every output is lines and an unfinished rest, in this sense. */
  lemma {:induction false} AnyOutputIsWritten(stdout: string) returns (ls: seq<Line>, last: string)
    ensures forall i :: 0 <= i < |ls| ==> ProperLine(ls[i])
    ensures '\n' !in last && stdout == Written(ls) + last
    decreases |stdout|
  {
    var i := IndexOf(stdout, '\n');
    if i == |stdout| {
      ls, last := [], stdout;
      assert [] + stdout == stdout;
    } else {
      var raw, rest := stdout[..i], stdout[i + 1..];
      var l := if DropCr(raw) != raw then Line(DropCr(raw), true) else Line(raw, false);
      assert raw == Raw(l);
      ls, last := AnyOutputIsWritten(rest);
      assert stdout == raw + ['\n'] + rest;
      assert ([l] + ls)[1..] == ls;
      assert stdout == (Raw(l) + ['\n'] + Written(ls)) + last;
      ls := [l] + ls;
    }
  }

  /**
   The scanner yields the lines the child wrote, LF or CR LF alike, and an unfinished last line,
   less a CR at its end, unless that line is the one that outgrew the buffer.
   */
  lemma ScannedAsWritten(ls: seq<Line>, last: string, end: ScanEnd, exit: Exit)
    requires forall i :: 0 <= i < |ls| ==> ProperLine(ls[i])
    requires '\n' !in last
    ensures ScannedLines(Child(Written(ls) + last, end, exit)) ==
            Texts(ls) + (if last == "" || end.TooLong? then [] else [DropCr(last)])
  {
    var parts := Split(Written(ls) + last, '\n');
    SplitWritten(ls, last);
    assert parts[..|parts| - 1] == Raws(ls) && parts[|parts| - 1] == last;
    var counts := !(last == "" || end.TooLong?);
    DropCrsConcat(Raws(ls), if counts then [last] else []);
    DropCrsOfRaws(ls);
    LastLine(last, counts);
  }

  // ----- every frame of a run is one line of payload -----

  ghost predicate AllOneLine(es: seq<Event>) {
    forall i :: 0 <= i < |es| ==> OneLine(es[i])
  }

  lemma {:induction false} DropCrsFree(lines: seq<string>)
    requires AllFree(lines, '\n')
    ensures AllFree(DropCrs(lines), '\n')
  {
    if lines == [] {
    } else {
      DropCrsFree(lines[1..]);
      assert forall k :: 0 <= k < |DropCr(lines[0])| ==> DropCr(lines[0])[k] == lines[0][k] && lines[0][k] in lines[0];
    }
  }

  lemma ScannedLinesFree(c: Child)
    ensures AllFree(ScannedLines(c), '\n')
  {
    var parts := Split(c.stdout, '\n');
    JoinOfSplit(c.stdout, '\n');
    var last := parts[|parts| - 1];
    DropCrsFree(parts[..|parts| - 1] + (if last == "" || c.end.TooLong? then [] else [last]));
  }

  lemma {:induction false} MessagesNamed(lines: seq<string>)
    requires AllFree(lines, '\n')
    ensures AllNamed(Messages(lines))
  {
    if lines == [] {
    } else {
      MessagesNamed(lines[1..]);
      assert "message"[0] == 'm' && "message"[6] == 'e';
    }
  }

  lemma MarshalledPayload(ms: seq<Member>)
    requires ms != []
    ensures EolFree(Marshal(ms)) && IsTrimmed(JsBlanks, Marshal(ms)) && Marshal(ms) != ""
  {
    MarshalOneLine(ms);
  }

  /** The closing frames are single plain lines whatever text stderr or an error message holds. */
  lemma TailNamed(errorData: Option<string>, doneData: string)
    requires EolFree(doneData) && (errorData.Some? ==> EolFree(errorData.value))
    ensures AllNamed(Tail(errorData, doneData))
  {
    assert "error"[0] == 'e' && "error"[4] == 'r' && "done"[0] == 'd' && "done"[3] == 'e';
  }

  lemma ClosingNamed(failure: Option<string>, id: string)
    ensures AllNamed(Closing(failure, id))
  {
    MarshalledPayload([Member("session_id", id)]);
    if failure.Some? {
      MarshalledPayload([Member("error", failure.value), Member("session_id", id)]);
    }
    TailNamed(if failure.Some? then Some(ErrorData(failure.value, id)) else None, DoneData(id));
  }

  lemma FramesNamed(c: Child, pinned: string, extract: Extract)
    ensures AllNamed(AllFrames(c, pinned, extract)) && AllOneLine(AllFrames(c, pinned, extract))
  {
    ScannedLinesFree(c);
    MessagesNamed(ScannedLines(c));
    var closing := Closing(Failure(c), RunId(c, pinned, extract));
    ClosingNamed(Failure(c), RunId(c, pinned, extract));
    NamedConcat(Messages(ScannedLines(c)), closing);
  }

  lemma NamedConcat(a: seq<Event>, b: seq<Event>)
    requires AllNamed(a) && AllNamed(b)
    ensures AllNamed(a + b) && AllOneLine(a + b)
  {
    assert forall i :: 0 <= i < |a + b| ==> NamedFrame((a + b)[i]) ==> OneLine((a + b)[i]);
  }

  // ----- what the page dispatches -----

  /** The lines a reader can see, trimmed, in order. */
  function Visible(lines: seq<string>): seq<Event> {
    if lines == [] then []
    else
      var t := Trim(JsBlanks, lines[0]);
      (if t == "" then [] else [Event("message", t)]) + Visible(lines[1..])
  }

  function Expected(c: Child, pinned: string, extract: Extract): seq<Event> {
    Visible(ScannedLines(c)) + Closing(Failure(c), RunId(c, pinned, extract))
  }

  /** What is visible is decided line by line: nothing of a blank line, the trimmed text of any other. */
  lemma {:induction false} VisibleConcat(a: seq<string>, b: seq<string>)
    ensures Visible(a + b) == Visible(a) + Visible(b)
  {
    if a == [] {
      assert a + b == b;
    } else {
      assert (a + b)[1..] == a[1..] + b;
      VisibleConcat(a[1..], b);
    }
  }

  lemma VisibleLine(line: string, blanks: string, text: string, more: string)
    requires line == blanks + text + more && AllBlank(JsBlanks, blanks) && AllBlank(JsBlanks, more)
    requires IsTrimmed(JsBlanks, text)
    ensures Visible([line]) == if text == "" then [] else [Event("message", text)]
  {
    TrimUnique(JsBlanks, blanks, text, more);
    assert [line][1..] == [];
  }

  lemma ReceivedMessage(line: string)
    ensures Received(Event("message", line)) ==
            if Trim(JsBlanks, line) == "" then [] else [Event("message", Trim(JsBlanks, line))]
  {
    TrimFixed(JsBlanks, "message");
    assert "message"[0] == 'm' && "message"[6] == 'e';
  }

  lemma {:induction false} ReceivedMessages(lines: seq<string>)
    ensures ReceivedAll(Messages(lines)) == Visible(lines)
  {
    if lines == [] {
    } else {
      var e := Event("message", lines[0]);
      ReceivedMessages(lines[1..]);
      if lines[0] != "" {
        ReceivedMessage(lines[0]);
        assert Messages(lines)[1..] == Messages(lines[1..]);
      } else {
        assert Messages(lines) == Messages(lines[1..]);
      }
    }
  }

  lemma ReceivedTrimmed(e: Event)
    requires e.name != "" && IsTrimmed(JsBlanks, e.name) && IsTrimmed(JsBlanks, e.data) && e.data != ""
    ensures Received(e) == [e]
  {
    TrimFixed(JsBlanks, e.name);
    TrimFixed(JsBlanks, e.data);
  }

  lemma ReceivedTail(errorData: Option<string>, doneData: string)
    requires IsTrimmed(JsBlanks, doneData) && doneData != ""
    requires errorData.Some? ==> IsTrimmed(JsBlanks, errorData.value) && errorData.value != ""
    ensures ReceivedAll(Tail(errorData, doneData)) == Tail(errorData, doneData)
  {
    assert "error"[0] == 'e' && "error"[4] == 'r' && "done"[0] == 'd' && "done"[3] == 'e';
    var done := [Event("done", doneData)];
    ReceivedTrimmed(done[0]);
    assert done[1..] == [];
    assert ReceivedAll(done) == done;
    if errorData.Some? {
      var e := Event("error", errorData.value);
      ReceivedTrimmed(e);
      assert ([e] + done)[1..] == done;
    }
  }

  lemma ReceivedClosing(failure: Option<string>, id: string)
    ensures ReceivedAll(Closing(failure, id)) == Closing(failure, id)
  {
    MarshalledPayload([Member("session_id", id)]);
    if failure.Some? {
      MarshalledPayload([Member("error", failure.value), Member("session_id", id)]);
    }
    ReceivedTail(if failure.Some? then Some(ErrorData(failure.value, id)) else None, DoneData(id));
  }

  lemma WholeRunIsDelivered(c: Child, pinned: string, extract: Extract)
    ensures ClientEvents(EncodeAll(AllFrames(c, pinned, extract))) == Expected(c, pinned, extract)
    ensures Leftover(EncodeAll(AllFrames(c, pinned, extract))) == ""
  {
    FramesNamed(c, pinned, extract);
    ReadBack(AllFrames(c, pinned, extract));
    ReceivedAllConcat(Messages(ScannedLines(c)), Closing(Failure(c), RunId(c, pinned, extract)));
    ReceivedMessages(ScannedLines(c));
    ReceivedClosing(Failure(c), RunId(c, pinned, extract));
  }

  lemma CutIsPrefix(text: string, part: string)
    requires part <= text
    ensures ClientEvents(part) <= ClientEvents(text)
  {
    assert text[..|part|] == part;
    CutAnywhere(text, |part|);
  }

  /**
   For every child output, exit and id, and for every way the network cuts the response into
   chunks, the text holds these events for the page: the visible lines in order, one error event
   if the run failed, and one done event, with nothing left over. A response cut off at any
   character holds a beginning of them. Which of them the page lives to handle is the subject of
   `PageLearnsOutcome`.
   */
  lemma RunIsDelivered(c: Child, pinned: string, extract: Extract, chunks: seq<string>)
    requires Concat(chunks) <= EncodeAll(AllFrames(c, pinned, extract))
    ensures ClientEvents(Concat(chunks)) <= Expected(c, pinned, extract)
    ensures Concat(chunks) == EncodeAll(AllFrames(c, pinned, extract)) ==>
              ClientEvents(Concat(chunks)) == Expected(c, pinned, extract) && Leftover(Concat(chunks)) == ""
  {
    WholeRunIsDelivered(c, pinned, extract);
    CutIsPrefix(EncodeAll(AllFrames(c, pinned, extract)), Concat(chunks));
  }

  /** What a broken connection took of a run's frames is a beginning of the whole response. */
  lemma BrokenOffIsPrefix(room: Option<nat>, es: seq<Event>, n: nat, more: seq<Event>)
    requires n <= |es|
    ensures Clip(room, EncodeAll(es[..n])) <= EncodeAll(es + more)
  {
    assert es + more == es[..n] + (es[n..] + more);
    EncodeAllConcat(es[..n], es[n..] + more);
    ClipGrows(room, EncodeAll(es[..n]), "");
  }

  // ----- what the page keeps -----

  lemma LookupPair(a: Member, b: Member, name: string)
    requires a.name != b.name
    ensures Lookup([a, b], name) == if name == b.name then b.value else if name == a.name then a.value else ""
  {
    assert [a, b][..1] == [a] && [a][..0] == [];
    assert Lookup([a], name) == if name == a.name then a.value else "";
  }

  lemma LookupOne(a: Member, name: string)
    ensures Lookup([a], name) == if name == a.name then a.value else ""
  {
    assert [a][..0] == [];
  }

  lemma ReadFlat(text: string, ms: seq<Member>, json: JsonParse)
    requires ReadsFlatObjects(json) && ReadObject(text) == Some(ms)
    ensures json(text) == Some(Obj(FlatChunk(ms)))
  {
  }

  lemma ParsedError(reason: string, id: string, json: JsonParse)
    requires ReadsFlatObjects(json)
    ensures json(ErrorData(reason, id)) == Some(Obj(Chunk("", IdOf(id), reason, NoBody, "")))
  {
    var a, b := Member("error", reason), Member("session_id", id);
    MarshalRoundTrip([a, b]);
    ReadFlat(Marshal([a, b]), [a, b], json);
    assert a.name[0] != b.name[0];
    assert "type"[0] != a.name[0] && "type"[0] != b.name[0];
    assert "result"[0] != a.name[0] && "result"[0] != b.name[0];
    LookupPair(a, b, "type");
    LookupPair(a, b, "result");
    LookupPair(a, b, "session_id");
    LookupPair(a, b, "error");
  }

  lemma ParsedDone(id: string, json: JsonParse)
    requires ReadsFlatObjects(json)
    ensures json(DoneData(id)) == Some(Obj(Chunk("", IdOf(id), "", NoBody, "")))
  {
    var a := Member("session_id", id);
    MarshalRoundTrip([a]);
    ReadFlat(Marshal([a]), [a], json);
    assert a.name[0] == 's' && "type"[0] != 's' && "error"[0] != 's' && "result"[0] != 's';
    LookupOne(a, "type");
    LookupOne(a, "result");
    LookupOne(a, "session_id");
    LookupOne(a, "error");
  }

  function WithId(v: View, id: string): View {
    if id == "" then v else v.(sessionId := TextId(id))
  }

  function ReasonOf(failure: string): Outcome {
    Failed(if failure != "" then failure else "erro")
  }

  lemma DoneHandled(v: View, data: string, id: string, json: JsonParse)
    requires json(data) == Some(Obj(Chunk("", IdOf(id), "", NoBody, "")))
    ensures Apply(v, Event("done", data), json) == Handling(WithId(v, id), false)
  {
    assert "done"[0] != 'm' && "done"[0] != 'e';
  }

  lemma ErrorHandled(v: View, data: string, reason: string, id: string, json: JsonParse)
    requires json(data) == Some(Obj(Chunk("", IdOf(id), reason, NoBody, "")))
    ensures Apply(v, Event("error", data), json) == Handling(WithId(v.(result := ReasonOf(reason)), id), false)
  {
    assert "error"[0] != 'm';
  }

  lemma ApplyDone(v: View, id: string, json: JsonParse)
    requires ReadsFlatObjects(json)
    ensures Apply(v, Event("done", DoneData(id)), json) == Handling(WithId(v, id), false)
  {
    ParsedDone(id, json);
    DoneHandled(v, DoneData(id), id, json);
  }

  lemma ApplyError(v: View, reason: string, id: string, json: JsonParse)
    requires ReadsFlatObjects(json)
    ensures Apply(v, Event("error", ErrorData(reason, id)), json) ==
            Handling(WithId(v.(result := ReasonOf(reason)), id), false)
  {
    ParsedError(reason, id, json);
    ErrorHandled(v, ErrorData(reason, id), reason, id, json);
  }

  lemma ApplyTail(v: View, errorData: Option<string>, doneData: string, json: JsonParse)
    requires errorData.Some? ==> !Apply(v, Event("error", errorData.value), json).threw
    ensures ApplyAll(v, Tail(errorData, doneData), json) ==
            var w := if errorData.Some? then Apply(v, Event("error", errorData.value), json).view else v;
            Apply(w, Event("done", doneData), json)
  {
    var done := Event("done", doneData);
    if errorData.Some? {
      var e := Event("error", errorData.value);
      assert ([e] + [done])[1..] == [done];
      ApplyOne(Apply(v, e, json).view, done, json);
    } else {
      assert [] + [done] == [done];
      ApplyOne(v, done, json);
    }
  }

  /** The closing frames never throw; they leave the id and, on failure, the reason. */
  lemma ApplyClosing(v: View, failure: Option<string>, id: string, json: JsonParse)
    requires ReadsFlatObjects(json)
    ensures ApplyAll(v, Closing(failure, id), json) ==
            Handling(WithId(if failure.Some? then v.(result := ReasonOf(failure.value)) else v, id), false)
  {
    var w := if failure.Some? then WithId(v.(result := ReasonOf(failure.value)), id) else v;
    if failure.Some? {
      ApplyError(v, failure.value, id, json);
    }
    ApplyTail(v, if failure.Some? then Some(ErrorData(failure.value, id)) else None, DoneData(id), json);
    ApplyDone(w, id, json);
  }

  lemma {:induction false} VisibleAreMessages(lines: seq<string>)
    ensures AllMessages(Visible(lines))
  {
    if lines == [] {
    } else {
      VisibleAreMessages(lines[1..]);
    }
  }

  /**
   What the page makes of a complete response. It breaks off exactly if a visible line makes a
   handler throw, as `BreaksSomewhere` says; then it handles the lines up to that one and neither
   `error` nor `done`. Otherwise it handles everything, and holds the id the server recorded, if
   there is one, and on failure exactly the server's reason, for any stderr text.
   */
  lemma PageLearnsOutcome(c: Child, pinned: string, extract: Extract, v: View, json: JsonParse)
    requires ReadsFlatObjects(json)
    ensures var lines, id := Visible(ScannedLines(c)), RunId(c, pinned, extract);
            var u, h := ApplyAll(v, lines, json), ApplyAll(v, Expected(c, pinned, extract), json);
            && (h.threw <==> BreaksSomewhere(v, lines, json))
            && (h.threw ==> h == u && Handled(v, Expected(c, pinned, extract), json) == Handled(v, lines, json))
            && (!h.threw ==>
                  && Handled(v, Expected(c, pinned, extract), json) == Expected(c, pinned, extract)
                  && h.view == WithId(if Failure(c).None? then u.view
                                      else u.view.(result := ReasonOf(Failure(c).value)), id))
  {
    var lines, id, failure := Visible(ScannedLines(c)), RunId(c, pinned, extract), Failure(c);
    var u := ApplyAll(v, lines, json);
    VisibleAreMessages(ScannedLines(c));
    BreaksOffIff(v, lines, json);
    ApplyClosing(u.view, failure, id, json);
    AfterLines(v, lines, Closing(failure, id), json);
  }

  /**
   The text on the page after a complete response that did not make it break off, in any chunking:
   the text blocks of the visible lines in order, a result's text standing in for those before it
   when there are none.
   */
  lemma PageShowsText(c: Child, pinned: string, extract: Extract, chunks: seq<string>, v: View, json: JsonParse)
    requires ReadsFlatObjects(json) && v.text == ""
    requires Concat(chunks) == EncodeAll(AllFrames(c, pinned, extract))
    requires !BreaksSomewhere(v, Visible(ScannedLines(c)), json)
    ensures var lines, text := Visible(ScannedLines(c)), ApplyAll(v, ClientEvents(Concat(chunks)), json).view.text;
            && ((forall i :: !OpensWithResult(lines, json, i)) ==> text == AllWords(lines, json))
            && forall i :: OpensWithResult(lines, json, i) ==>
                             text == ResultWords(lines[i], json) + AllWords(lines[i..], json)
  {
    var lines := Visible(ScannedLines(c));
    RunIsDelivered(c, pinned, extract, chunks);
    PageLearnsOutcome(c, pinned, extract, v, json);
    VisibleAreMessages(ScannedLines(c));
    BreaksOffIff(v, lines, json);
    ShownText(v, lines, json);
  }

  lemma AfterLines(v: View, lines: seq<Event>, closing: seq<Event>, json: JsonParse)
    requires !ApplyAll(ApplyAll(v, lines, json).view, closing, json).threw
    ensures var u, h := ApplyAll(v, lines, json), ApplyAll(v, lines + closing, json);
            && h.threw == u.threw
            && (u.threw ==> h == u && Handled(v, lines + closing, json) == Handled(v, lines, json))
            && (!u.threw ==>
                  h == ApplyAll(u.view, closing, json) && Handled(v, lines + closing, json) == lines + closing)
  {
    ApplyAllConcat(v, lines, closing, json);
    HandledPrefix(v, lines, json);
    HandledPrefix(ApplyAll(v, lines, json).view, closing, json);
    assert Handled(v, lines, json) + [] == Handled(v, lines, json);
  }

  /**
   A child that prints the JSON value `null`: the page breaks off at once. It never handles `done`,
   so it does not learn the id, which the server has recorded all the same.
   */
  lemma NullLineBreaksPage(pinned: string, extract: Extract, v: View, json: JsonParse)
    requires ReadsFlatObjects(json) && json("null") == Some(Null)
    ensures var c := Child("null\n", Eof, ExitOk);
            && Visible(ScannedLines(c)) == [Event("message", "null")]
            && ApplyAll(v, Expected(c, pinned, extract), json) == Handling(v, true)
            && Handled(v, Expected(c, pinned, extract), json) == [Event("message", "null")]
            && (pinned != "" ==> RunId(c, pinned, extract) == pinned)
  {
    var c, e := Child("null\n", Eof, ExitOk), Event("message", "null");
    NullLineScanned();
    assert ["null"][1..] == [] && [e][1..] == [];
    TrimFixed(JsBlanks, "null");
    assert "null"[0] == 'n' && "null"[3] == 'l';
    assert Visible(["null"]) == [e];
    ApplyOne(v, e, json);
    PageLearnsOutcome(c, pinned, extract, v, json);
    VisibleAreMessages([e.data]);
    BreaksOffIff(v, [e], json);
    RunIdSource(pinned, ["null"], extract);
  }

  lemma NullLineScanned()
    ensures ScannedLines(Child("null\n", Eof, ExitOk)) == ["null"]
  {
    var line := Line("null", false);
    assert [line][1..] == [];
    assert Raw(line) == "null" + "" == "null";
    assert Written([line]) == "null" + ['\n'] + Written([]);
    assert "null\n" == Written([line]) + "";
    assert line.text[3] == 'l';
    ScannedAsWritten([line], "", Eof, ExitOk);
    assert Texts([line]) == ["null"];
  }

  // ----- the standard -----

  lemma PayloadIsPlain(data: string)
    requires EolFree(data) && IsTrimmed(JsBlanks, data) && data != ""
    ensures Plain(data)
  {
    TrimFixed(JsBlanks, data);
  }

  lemma TailPlain(errorData: Option<string>, doneData: string)
    requires Plain(doneData) && (errorData.Some? ==> Plain(errorData.value))
    ensures AllPlain(Tail(errorData, doneData))
  {
  }

  lemma ClosingPlain(failure: Option<string>, id: string)
    ensures AllPlain(Closing(failure, id))
  {
    MarshalledPayload([Member("session_id", id)]);
    PayloadIsPlain(Marshal([Member("session_id", id)]));
    if failure.Some? {
      var ms := [Member("error", failure.value), Member("session_id", id)];
      MarshalledPayload(ms);
      PayloadIsPlain(Marshal(ms));
    }
    TailPlain(if failure.Some? then Some(ErrorData(failure.value, id)) else None, DoneData(id));
  }

  /** Page and standard read the whole run alike exactly when every non-empty output line is plain. */
  lemma RunMeetsStandard(c: Child, pinned: string, extract: Extract)
    ensures var text := EncodeAll(AllFrames(c, pinned, extract));
            StandardEvents(text) == ClientEvents(text) <==> AllPlain(Messages(ScannedLines(c)))
  {
    var messages, closing := Messages(ScannedLines(c)), Closing(Failure(c), RunId(c, pinned, extract));
    FramesNamed(c, pinned, extract);
    PageMeetsStandard(messages + closing);
    ClosingPlain(Failure(c), RunId(c, pinned, extract));
    PlainConcat(messages, closing);
  }

  lemma PlainConcat(a: seq<Event>, b: seq<Event>)
    ensures AllPlain(a + b) <==> AllPlain(a) && AllPlain(b)
  {
    assert forall i :: 0 <= i < |a| ==> a[i] == (a + b)[i];
    assert forall i :: 0 <= i < |b| ==> b[i] == (a + b)[|a| + i];
  }

  // ----- the id of a run -----

  /** `id` comes from the first line that names one. */
  ghost predicate FirstNamed(lines: seq<string>, extract: Extract, id: string) {
    exists i :: 0 <= i < |lines| && lines[i] != "" && extract(lines[i]) == id && id != "" &&
                forall j :: 0 <= j < i ==> lines[j] == "" || extract(lines[j]) == ""
  }

  /** The pinned id if there is one; otherwise the first one a line names; otherwise none. */
  lemma {:induction false} RunIdSource(pinned: string, lines: seq<string>, extract: Extract)
    ensures var id := LearnId(pinned, lines, extract);
            && (pinned != "" ==> id == pinned)
            && (pinned == "" ==> FirstNamed(lines, extract, id) ||
                                 (id == "" &&
                                  forall j :: 0 <= j < |lines| ==> lines[j] == "" || extract(lines[j]) == ""))
    decreases |lines|
  {
    if lines == [] {
    } else {
      var next := if pinned == "" && lines[0] != "" then extract(lines[0]) else pinned;
      RunIdSource(next, lines[1..], extract);
      var id, more := LearnId(next, lines[1..], extract), lines[1..];
      if pinned == "" && next == "" {
        if FirstNamed(more, extract, id) {
          var i :| 0 <= i < |more| && more[i] != "" && extract(more[i]) == id && id != "" &&
                   forall j :: 0 <= j < i ==> more[j] == "" || extract(more[j]) == "";
          assert lines[i + 1] == more[i];
          assert forall j :: 0 < j < i + 1 ==> lines[j] == more[j - 1];
        } else {
          assert forall j :: 0 < j < |lines| ==> lines[j] == more[j - 1];
        }
      }
    }
  }
}
