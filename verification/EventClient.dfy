/**
 The page's hand-written reader of the event stream: chunks of text arrive, complete blocks
 are cut off the front of a buffer, and each block may dispatch one event.
 */
module EventClient {
  import opened Text
  import opened EventFormat
  import opened MessageContent
  import opened JsonText

  // ----- cutting blocks off the buffer -----

  ghost predicate BreakAt(s: string, i: int) {
    0 <= i && i + 1 < |s| && s[i] == '\n' && s[i + 1] == '\n'
  }

  /** `buf.indexOf('\n\n')`, with `|s|` for "not found". */
  function FindBreak(s: string): (i: nat)
    ensures i <= |s|
    ensures i < |s| ==> BreakAt(s, i)
    ensures forall j :: j < i ==> !BreakAt(s, j)
  {
    if |s| < 2 then |s|
    else if s[0] == '\n' && s[1] == '\n' then 0
    else
      var i := FindBreak(s[1..]);
      assert forall j :: 0 < j < i + 1 && BreakAt(s, j) ==> BreakAt(s[1..], j - 1);
      i + 1
  }

  lemma FindBreakAppend(a: string, b: string)
    requires FindBreak(a) < |a|
    ensures FindBreak(a + b) == FindBreak(a)
  {
    var i, k := FindBreak(a), FindBreak(a + b);
    assert BreakAt(a + b, i);
    assert k < i ==> BreakAt(a, k);
  }

  // ----- one block -----

  /** One pass of the line loop, from the name and data read so far. */
  function ReadLine(line: string, e: Event): Event {
    if HasPrefix(line, "event:") then e.(name := Trim(JsBlanks, line[6..]))
    else if HasPrefix(line, "data:") then e.(data := e.data + Trim(JsBlanks, line[5..]))
    else e
  }

  function ReadLines(lines: seq<string>, e: Event): Event {
    if lines == [] then e else ReadLines(lines[1..], ReadLine(lines[0], e))
  }

  /** A block dispatches its event unless no data was collected. */
  function Dispatch(block: string): (es: seq<Event>)
    ensures |es| <= 1
  {
    var e := ReadLines(Split(block, '\n'), Event("message", ""));
    if e.data == "" then [] else [e]
  }

  // ----- what a block says -----

  /** The trimmed data lines, one behind the other. */
  function DataOf(lines: seq<string>): string {
    if lines == [] then ""
    else (if HasPrefix(lines[0], "data:") then Trim(JsBlanks, lines[0][5..]) else "") + DataOf(lines[1..])
  }

  ghost predicate LastEventLine(lines: seq<string>, i: int) {
    0 <= i < |lines| && HasPrefix(lines[i], "event:") && forall j :: i < j < |lines| ==> !HasPrefix(lines[j], "event:")
  }

  /** The last event line names the event, and the data lines make up its data; other lines are ignored. */
  lemma {:induction false} LinesMean(lines: seq<string>, e: Event)
    ensures ReadLines(lines, e).data == e.data + DataOf(lines)
    ensures (forall i :: 0 <= i < |lines| ==> !HasPrefix(lines[i], "event:")) ==> ReadLines(lines, e).name == e.name
    ensures forall i :: LastEventLine(lines, i) ==> ReadLines(lines, e).name == Trim(JsBlanks, lines[i][6..])
    decreases |lines|
  {
    if lines == [] {
      assert e.data + "" == e.data;
    } else {
      var next, more := ReadLine(lines[0], e), lines[1..];
      LinesMean(more, next);
      LineAdds(lines[0], e, DataOf(more));
      assert forall j :: 0 <= j < |more| ==> more[j] == lines[j + 1];
      forall i | LastEventLine(lines, i)
        ensures ReadLines(lines, e).name == Trim(JsBlanks, lines[i][6..])
      {
        if i > 0 {
          assert lines[i] == more[i - 1] && LastEventLine(more, i - 1);
        }
      }
    }
  }

  lemma LineAdds(line: string, e: Event, more: string)
    ensures ReadLine(line, e).data + more ==
            e.data + ((if HasPrefix(line, "data:") then Trim(JsBlanks, line[5..]) else "") + more)
    ensures ReadLine(line, e).name == if HasPrefix(line, "event:") then Trim(JsBlanks, line[6..]) else e.name
  {
    assert "event:"[0] == 'e' && "data:"[0] == 'd';
    if HasPrefix(line, "data:") {
      Assoc(e.data, Trim(JsBlanks, line[5..]), more);
    } else {
      assert "" + more == more;
    }
  }

  // ----- a whole text -----

  /** Every event the blocks at the front of the buffer dispatch. */
  function ClientEvents(buf: string): seq<Event>
    decreases |buf|
  {
    var i := FindBreak(buf);
    if i == |buf| then [] else Dispatch(buf[..i]) + ClientEvents(buf[i + 2..])
  }

  /** The unfinished block that stays in the buffer. */
  function Leftover(buf: string): string
    decreases |buf|
  {
    var i := FindBreak(buf);
    if i == |buf| then buf else Leftover(buf[i + 2..])
  }

  lemma {:induction false} CutBlock(block: string, tail: string)
    requires FindBreak(block + ("\n\n" + tail)) == |block|
    ensures ClientEvents(block + ("\n\n" + tail)) == Dispatch(block) + ClientEvents(tail)
    ensures Leftover(block + ("\n\n" + tail)) == Leftover(tail)
  {
    var s := block + ("\n\n" + tail);
    assert s[..|block|] == block && s[|block| + 2..] == tail;
  }

  /** Text that arrives later never changes the events already dispatched: chunks do not matter. */
  lemma {:induction false} ReadOn(a: string, b: string)
    ensures ClientEvents(a + b) == ClientEvents(a) + ClientEvents(Leftover(a) + b)
    ensures Leftover(a + b) == Leftover(Leftover(a) + b)
    decreases |a|
  {
    var i := FindBreak(a);
    if i < |a| {
      var block, tail := a[..i], a[i + 2..];
      FindBreakAppend(a, b);
      assert a == block + ("\n\n" + tail);
      assert a + b == block + ("\n\n" + (tail + b));
      CutBlock(block, tail);
      CutBlock(block, tail + b);
      ReadOn(tail, b);
      Assoc(Dispatch(block), ClientEvents(tail), ClientEvents(Leftover(a) + b));
    }
  }

  /** Cutting a stream anywhere leaves a prefix of its events, never a partial or altered one. */
  lemma {:induction false} CutAnywhere(text: string, k: nat)
    requires k <= |text|
    ensures ClientEvents(text[..k]) <= ClientEvents(text)
  {
    assert text[..k] + text[k..] == text;
    ReadOn(text[..k], text[k..]);
  }

  // ----- what the page keeps -----

  /**
   A `session_id` as the page finds it: absent or falsy, text, or some other truthy value. A value
   that `setSession` cannot show (it calls `slice`) is recorded and then makes it throw.
   */
  datatype IdField = NoId | TextId(text: string) | OtherId(shows: bool)

  /**
   The parts of an object that the page looks at; "" stands for a missing or falsy `error`, and for
   a `result` that is no text.
   */
  datatype Chunk = Chunk(kind: string, sessionId: IdField, error: string, body: Body, words: string)

  /** A parsed value: `null`, on which every property access throws, or anything else. */
  datatype Value = Null | Obj(chunk: Chunk)

  /** `JSON.parse`; `None` is its own, caught, exception. */
  type JsonParse = string -> Option<Value>

  function IdOf(text: string): IdField {
    if text == "" then NoId else TextId(text)
  }

  /** An object of strings: its `message`, if any, is a string and has no content. */
  function FlatChunk(ms: seq<Member>): Chunk {
    Chunk(Lookup(ms, "type"), IdOf(Lookup(ms, "session_id")), Lookup(ms, "error"), NoBody, Lookup(ms, "result"))
  }

  /** `JSON.parse` reads a flat object of strings as the RFC says; nothing is assumed of other text. */
  ghost predicate ReadsFlatObjects(json: JsonParse) {
    forall s :: ReadObject(s).Some? ==>
                  var ms := ReadObject(s).value;
                  json(s) == Some(Obj(FlatChunk(ms)))
  }

  datatype Outcome = NoResult | FromMessage(data: string) | Failed(reason: string)

  /** `sessionId` and the `state` of one streaming call: the text shown and the result. */
  datatype View = View(sessionId: IdField, text: string, result: Outcome)

  /** What handling an event leaves, and whether it ended in an exception nobody in the reader catches. */
  datatype Handling = Handling(view: View, threw: bool)

  function SetSession(v: View, id: IdField): Handling {
    Handling(v.(sessionId := id), id.OtherId? && !id.shows)
  }

  /** `if (obj.session_id) setSession(obj.session_id)`. */
  function KeepSession(v: View, id: IdField): Handling {
    if id.NoId? then Handling(v, false) else SetSession(v, id)
  }

  function ReadChunk(v: View, c: Chunk, data: string): Handling {
    var h := if v.sessionId.NoId? then KeepSession(v, c.sessionId) else Handling(v, false);
    if h.threw then h
    else if c.kind == "assistant" then
      var r := LoopOver(v.text, c.body);
      Handling(h.view.(text := r.text), r.threw)
    else if c.kind == "result" then
      Handling(h.view.(result := FromMessage(data), text := if v.text == "" then c.words else v.text), false)
    else h
  }

  /** `readChunk`, or the `error` or `done` branch beside it. */
  function Apply(v: View, e: Event, json: JsonParse): Handling {
    match json(e.data)
    case None => Handling(v, false)
    case Some(Null) => Handling(v, e.name == "message" || e.name == "error" || e.name == "done")
    case Some(Obj(c)) =>
      if e.name == "message" then ReadChunk(v, c, e.data)
      else if e.name == "error" then
        KeepSession(v.(result := Failed(if c.error != "" then c.error else "erro")), c.sessionId)
      else if e.name == "done" then KeepSession(v, c.sessionId)
      else Handling(v, false)
  }

  /** Handle events until one throws. */
  function ApplyAll(v: View, es: seq<Event>, json: JsonParse): Handling
    decreases |es|
  {
    if es == [] then Handling(v, false)
    else
      var h := Apply(v, es[0], json);
      if h.threw then h else ApplyAll(h.view, es[1..], json)
  }

  /** The events that get handled, the throwing one included. */
  function Handled(v: View, es: seq<Event>, json: JsonParse): seq<Event>
    decreases |es|
  {
    if es == [] then []
    else
      var h := Apply(v, es[0], json);
      [es[0]] + (if h.threw then [] else Handled(h.view, es[1..], json))
  }

  lemma {:induction false} ApplyAllConcat(v: View, a: seq<Event>, b: seq<Event>, json: JsonParse)
    ensures var h := ApplyAll(v, a, json);
            && ApplyAll(v, a + b, json) == (if h.threw then h else ApplyAll(h.view, b, json))
            && Handled(v, a + b, json) == Handled(v, a, json) + (if h.threw then [] else Handled(h.view, b, json))
    decreases |a|
  {
    if a == [] {
      assert a + b == b;
      assert [] + Handled(v, b, json) == Handled(v, b, json);
    } else {
      assert (a + b)[1..] == a[1..] + b;
      ApplyAllConcat(Apply(v, a[0], json).view, a[1..], b, json);
    }
  }

  /** Without an exception every event is handled; with one, exactly those up to it. */
  lemma {:induction false} HandledPrefix(v: View, es: seq<Event>, json: JsonParse)
    ensures Handled(v, es, json) <= es
    ensures !ApplyAll(v, es, json).threw ==> Handled(v, es, json) == es
    ensures ApplyAll(v, es, json).threw ==>
              var n := |Handled(v, es, json)|;
              && n > 0
              && !ApplyAll(v, es[..n - 1], json).threw
              && Apply(ApplyAll(v, es[..n - 1], json).view, es[n - 1], json) == ApplyAll(v, es, json)
    decreases |es|
  {
    if es == [] {
    } else {
      var h, more := Apply(v, es[0], json), es[1..];
      if h.threw {
        assert es[..0] == [];
      } else {
        HandledPrefix(h.view, more, json);
        var n := |Handled(v, es, json)|;
        assert es == [es[0]] + more;
        if ApplyAll(v, es, json).threw {
          assert es[..n - 1][0] == es[0] && es[..n - 1][1..] == more[..n - 2];
          assert es[n - 1] == more[n - 2];
        }
      }
    }
  }

  // ----- when the page breaks off -----

  /** Throws whatever the page knows: `null`, or assistant content the loop breaks on. */
  predicate Breaks(e: Event, json: JsonParse) {
    match json(e.data)
    case None => false
    case Some(Null) => true
    case Some(Obj(c)) => c.kind == "assistant" && BodyBreaks(c.body)
  }

  predicate NamesSession(e: Event, json: JsonParse) {
    match json(e.data)
    case Some(Obj(c)) => !c.sessionId.NoId?
    case _ => false
  }

  /** Names a session by a value that cannot be shown: throws if it is the first name the page hears. */
  predicate MisnamesSession(e: Event, json: JsonParse) {
    match json(e.data)
    case Some(Obj(c)) => c.sessionId.OtherId? && !c.sessionId.shows
    case _ => false
  }

  ghost predicate BreaksAt(v: View, es: seq<Event>, json: JsonParse, i: nat)
    requires i < |es|
  {
    || Breaks(es[i], json)
    || (v.sessionId.NoId? && MisnamesSession(es[i], json) && forall j :: 0 <= j < i ==> !NamesSession(es[j], json))
  }

  ghost predicate BreaksSomewhere(v: View, es: seq<Event>, json: JsonParse) {
    exists i :: 0 <= i < |es| && BreaksAt(v, es, json, i)
  }

  ghost predicate AllMessages(es: seq<Event>) {
    forall i :: 0 <= i < |es| ==> es[i].name == "message"
  }

  /**
   Exactly when the page breaks off among messages: one is `null` or has content the loop
   breaks on, or the page knows no session and the first message that names one misnames it.
   */
  lemma {:induction false} BreaksOffIff(v: View, es: seq<Event>, json: JsonParse)
    requires AllMessages(es)
    ensures ApplyAll(v, es, json).threw <==> BreaksSomewhere(v, es, json)
    decreases |es|
  {
    if es == [] {
    } else {
      var h, more := Apply(v, es[0], json), es[1..];
      ThrowsAtOnce(v, es, json);
      if !h.threw {
        BreaksOffIff(h.view, more, json);
        assert h.view.sessionId.NoId? <==> v.sessionId.NoId? && !NamesSession(es[0], json);
        BreaksLater(v, h.view, es, json);
      }
    }
  }

  lemma ThrowsAtOnce(v: View, es: seq<Event>, json: JsonParse)
    requires es != [] && es[0].name == "message"
    ensures Apply(v, es[0], json).threw <==> BreaksAt(v, es, json, 0)
  {
    match json(es[0].data)
    case Some(Obj(c)) => LoopMeans(v.text, c.body);
    case _ =>
  }

  lemma BreaksLater(v: View, w: View, es: seq<Event>, json: JsonParse)
    requires es != [] && !BreaksAt(v, es, json, 0)
    requires w.sessionId.NoId? <==> v.sessionId.NoId? && !NamesSession(es[0], json)
    ensures BreaksSomewhere(v, es, json) <==> BreaksSomewhere(w, es[1..], json)
  {
    var more := es[1..];
    forall i | 0 <= i < |more|
      ensures BreaksAt(w, more, json, i) <==> BreaksAt(v, es, json, i + 1)
    {
      assert more[i] == es[i + 1];
      assert forall j :: 0 < j < i + 1 ==> es[j] == more[j - 1];
      assert forall j :: 0 <= j < i ==> more[j] == es[j + 1];
    }
    if BreaksSomewhere(v, es, json) {
      var i :| 0 <= i < |es| && BreaksAt(v, es, json, i);
      assert BreaksAt(w, more, json, i - 1);
    }
  }

  // ----- the text shown -----

  /** The text blocks of a message. */
  function Words(e: Event, json: JsonParse): string {
    match json(e.data)
    case Some(Obj(c)) => if c.kind == "assistant" then WordsIn(c.body) else ""
    case _ => ""
  }

  /** The text of a result message. */
  function ResultWords(e: Event, json: JsonParse): string {
    match json(e.data)
    case Some(Obj(c)) => if c.kind == "result" then c.words else ""
    case _ => ""
  }

  function AllWords(es: seq<Event>, json: JsonParse): string {
    if es == [] then "" else Words(es[0], json) + AllWords(es[1..], json)
  }

  /** The first text of any kind is that of the result message `i`. */
  ghost predicate OpensWithResult(es: seq<Event>, json: JsonParse, i: int) {
    && 0 <= i < |es| && ResultWords(es[i], json) != ""
    && forall j :: 0 <= j < i ==> Words(es[j], json) == "" && ResultWords(es[j], json) == ""
  }

  lemma TextStep(v: View, e: Event, json: JsonParse)
    requires e.name == "message" && !Apply(v, e, json).threw
    ensures Apply(v, e, json).view.text ==
            if v.text == "" && ResultWords(e, json) != "" then ResultWords(e, json) else v.text + Words(e, json)
  {
    assert v.text + "" == v.text;
    match json(e.data)
    case Some(Obj(c)) => LoopMeans(v.text, c.body);
    case _ =>
  }

  lemma {:induction false} TextGrows(v: View, es: seq<Event>, json: JsonParse)
    requires AllMessages(es) && v.text != "" && !ApplyAll(v, es, json).threw
    ensures ApplyAll(v, es, json).view.text == v.text + AllWords(es, json)
    decreases |es|
  {
    if es == [] {
      assert v.text + "" == v.text;
    } else {
      TextStep(v, es[0], json);
      TextGrows(Apply(v, es[0], json).view, es[1..], json);
      Assoc(v.text, Words(es[0], json), AllWords(es[1..], json));
    }
  }

  lemma ResultLater(es: seq<Event>, json: JsonParse, i: int)
    requires es != [] && Words(es[0], json) == "" && ResultWords(es[0], json) == ""
    ensures OpensWithResult(es, json, i) <==> OpensWithResult(es[1..], json, i - 1)
    ensures 0 < i <= |es| ==> es[i..] == es[1..][i - 1..]
  {
    var more := es[1..];
    if OpensWithResult(es, json, i) {
      assert es[i] == more[i - 1];
      assert forall j :: 0 <= j < i - 1 ==> more[j] == es[j + 1];
    }
    if OpensWithResult(more, json, i - 1) {
      assert es[i] == more[i - 1];
      assert forall j :: 0 < j < i ==> es[j] == more[j - 1];
    }
  }

  lemma FirstText(es: seq<Event>, json: JsonParse)
    requires es != []
    ensures ResultWords(es[0], json) != "" ==> OpensWithResult(es, json, 0)
    ensures ResultWords(es[0], json) != "" || Words(es[0], json) != "" ==>
              forall i :: OpensWithResult(es, json, i) ==> i == 0
    ensures ResultWords(es[0], json) != "" ==> Words(es[0], json) == ""
  {
  }

  /**
   What the page shows once it has handled messages without breaking off: their text blocks in
   order; if the first text of any kind is that of a result message, that text and the text blocks
   after it.
   */
  lemma {:induction false} ShownText(v: View, es: seq<Event>, json: JsonParse)
    requires AllMessages(es) && v.text == "" && !ApplyAll(v, es, json).threw
    ensures (forall i :: !OpensWithResult(es, json, i)) ==> ApplyAll(v, es, json).view.text == AllWords(es, json)
    ensures forall i :: OpensWithResult(es, json, i) ==>
                          ApplyAll(v, es, json).view.text == ResultWords(es[i], json) + AllWords(es[i..], json)
    decreases |es|
  {
    if es == [] {
    } else {
      var w, more := Apply(v, es[0], json).view, es[1..];
      TextStep(v, es[0], json);
      FirstText(es, json);
      assert "" + Words(es[0], json) == Words(es[0], json);
      if w.text != "" {
        TextGrows(w, more, json);
        assert es[0..] == es;
        assert "" + AllWords(more, json) == AllWords(more, json);
      } else {
        ShownText(w, more, json);
        assert "" + AllWords(more, json) == AllWords(more, json);
        forall i | OpensWithResult(more, json, i)
          ensures OpensWithResult(es, json, i + 1)
        {
          ResultLater(es, json, i + 1);
        }
        forall i | OpensWithResult(es, json, i)
          ensures ApplyAll(v, es, json).view.text == ResultWords(es[i], json) + AllWords(es[i..], json)
        {
          ResultLater(es, json, i);
        }
      }
    }
  }

  class Page {
    var sessionId: IdField
    var text: string
    var result: Outcome
    ghost var log: seq<Event>  // every event handled, oldest first

    ghost function Seen(): View
      reads this
    {
      View(sessionId, text, result)
    }

    constructor (sessionId: IdField)
      ensures Seen() == View(sessionId, "", NoResult) && log == []
    {
      this.sessionId, text, result, log := sessionId, "", NoResult, [];
    }

    method SetSessionId(id: IdField) returns (threw: bool)
      modifies this`sessionId
      ensures Handling(Seen(), threw) == SetSession(old(Seen()), id)
    {
      sessionId := id;
      threw := id.OtherId? && !id.shows;
    }

    method HandleChunk(c: Chunk, data: string) returns (threw: bool)
      modifies this`sessionId, this`text, this`result
      ensures Handling(Seen(), threw) == ReadChunk(old(Seen()), c, data)
    {
      threw := false;
      if !c.sessionId.NoId? && sessionId.NoId? {
        threw := SetSessionId(c.sessionId);
        if threw {
          return;
        }
      }
      if c.kind == "assistant" {
        text, threw := ReadContent(text, c.body);
      } else if c.kind == "result" {
        result := FromMessage(data);
        if text == "" {
          text := c.words;
        }
      }
    }

    /** `readChunk`, or the branch for `error` or `done`; true if it threw. */
    method Handle(e: Event, json: JsonParse) returns (threw: bool)
      modifies this
      ensures Handling(Seen(), threw) == Apply(old(Seen()), e, json)
      ensures log == old(log) + [e]
    {
      log := log + [e];
      threw := false;
      var parsed := json(e.data);
      if parsed.None? {
        return;
      }
      if parsed.value.Null? {
        return e.name == "message" || e.name == "error" || e.name == "done";
      }
      var c := parsed.value.chunk;
      if e.name == "message" {
        threw := HandleChunk(c, e.data);
      } else if e.name == "error" {
        result := Failed(if c.error != "" then c.error else "erro");
        if !c.sessionId.NoId? {
          threw := SetSessionId(c.sessionId);
        }
      } else if e.name == "done" {
        if !c.sessionId.NoId? {
          threw := SetSessionId(c.sessionId);
        }
      }
    }

    /** The loop over the lines of one block, and the dispatch that follows it. */
    method HandleBlock(block: string, json: JsonParse) returns (threw: bool)
      modifies this
      ensures Handling(Seen(), threw) == ApplyAll(old(Seen()), Dispatch(block), json)
      ensures log == old(log) + Handled(old(Seen()), Dispatch(block), json)
    {
      var lines := Split(block, '\n');
      var event, data := "message", "";
      for i := 0 to |lines|
        invariant Seen() == old(Seen()) && log == old(log)
        invariant ReadLines(lines[i..], Event(event, data)) == ReadLines(lines, Event("message", ""))
      {
        var line := lines[i];
        assert lines[i..][0] == line && lines[i..][1..] == lines[i + 1..];
        if HasPrefix(line, "event:") {
          event := Trim(JsBlanks, line[6..]);
        } else if HasPrefix(line, "data:") {
          data := data + Trim(JsBlanks, line[5..]);
        }
      }
      assert lines[|lines|..] == [];
      if data == "" {
        return false;
      }
      ApplyOne(Seen(), Event(event, data), json);
      threw := Handle(Event(event, data), json);
    }

    /** The inner loop: handle the blocks the buffer holds until one throws; keep the rest. */
    method DrainBuffer(text: string, json: JsonParse) returns (buf: string, threw: bool)
      modifies this
      ensures Handling(Seen(), threw) == ApplyAll(old(Seen()), ClientEvents(text), json)
      ensures log == old(log) + Handled(old(Seen()), ClientEvents(text), json)
      ensures !threw ==> buf == Leftover(text)
    {
      buf, threw := text, false;
      ghost var done: seq<Event> := [];
      ghost var start, log0 := Seen(), log;
      var idx := FindBreak(buf);
      while idx < |buf|
        invariant idx == FindBreak(buf)
        invariant ClientEvents(text) == done + ClientEvents(buf) && Leftover(text) == Leftover(buf)
        invariant Sofar(start, log0, done, Seen(), log, json)
        decreases |buf|
      {
        assert BreakAt(buf, idx);
        TakeBlock(buf, idx);
        TakeRest(buf, idx);
        var block := buf[..idx];
        buf := buf[idx + 2..];
        ghost var es, was, log1 := Dispatch(block), Seen(), log;
        threw := HandleBlock(block, json);
        Advance(start, log0, done, es, ClientEvents(buf), was, log1, Handling(Seen(), threw), log, json);
        if threw {
          return;
        }
        done := done + es;
        idx := FindBreak(buf);
      }
      NoBlock(buf);
      assert done + [] == done;
    }

    /**
     The whole reader: the outer loop over the chunks the network happens to deliver. An exception
     in a handler leaves both loops, so nothing after it is read.
     */
    method RunStreaming(chunks: seq<string>, json: JsonParse) returns (buf: string, threw: bool)
      modifies this
      ensures Handling(Seen(), threw) ==
              ApplyAll(View(old(sessionId), "", NoResult), ClientEvents(Concat(chunks)), json)
      ensures log == old(log) + Handled(View(old(sessionId), "", NoResult), ClientEvents(Concat(chunks)), json)
      ensures !threw ==> buf == Leftover(Concat(chunks))
    {
      text, result := "", NoResult;
      buf, threw := "", false;
      ghost var start, log0 := Seen(), log;
      for i := 0 to |chunks|
        invariant buf == Leftover(Concat(chunks[..i])) && !threw
        invariant Sofar(start, log0, ClientEvents(Concat(chunks[..i])), Seen(), log, json)
      {
        ghost var before := ClientEvents(Concat(chunks[..i]));
        ghost var now := ClientEvents(buf + chunks[i]);
        ConcatSnoc(chunks, i);
        ReadOn(Concat(chunks[..i]), chunks[i]);
        ghost var later, was, log1 := EventsAfter(chunks, i + 1), Seen(), log;
        buf, threw := DrainBuffer(buf + chunks[i], json);
        Advance(start, log0, before, now, later, was, log1, Handling(Seen(), threw), log, json);
        if threw {
          return;
        }
      }
      assert chunks[..|chunks|] == chunks;
    }
  }

  lemma ApplyOne(v: View, e: Event, json: JsonParse)
    ensures ApplyAll(v, [e], json) == Apply(v, e, json) && Handled(v, [e], json) == [e]
  {
    assert [e][1..] == [];
  }

  lemma TakeBlock(buf: string, i: nat)
    requires i == FindBreak(buf) && i + 2 <= |buf|
    ensures ClientEvents(buf) == Dispatch(buf[..i]) + ClientEvents(buf[i + 2..])
  {
  }

  lemma TakeRest(buf: string, i: nat)
    requires i == FindBreak(buf) && i + 2 <= |buf|
    ensures Leftover(buf) == Leftover(buf[i + 2..])
  {
    var rest := buf[i + 2..];
    assert Leftover(buf) == Leftover(rest);
  }

  lemma NoBlock(buf: string)
    requires FindBreak(buf) >= |buf|
    ensures ClientEvents(buf) == [] && Leftover(buf) == buf
  {
  }

  /** The reader has handled `done`, without an exception, and that is what it has logged. */
  ghost predicate Sofar(start: View, log0: seq<Event>, done: seq<Event>, now: View, log: seq<Event>, json: JsonParse) {
    log == log0 + Handled(start, done, json) && Handling(now, false) == ApplyAll(start, done, json)
  }

  /** Handling `es` after `done`; after an exception nothing that follows is handled. */
  lemma Advance(start: View, log0: seq<Event>, done: seq<Event>, es: seq<Event>, more: seq<Event>,
                was: View, log1: seq<Event>, h: Handling, log: seq<Event>, json: JsonParse)
    requires Sofar(start, log0, done, was, log1, json)
    requires h == ApplyAll(was, es, json) && log == log1 + Handled(was, es, json)
    ensures done + (es + more) == (done + es) + more
    ensures if h.threw then
              ApplyAll(start, done + (es + more), json) == h && log == log0 + Handled(start, done + (es + more), json)
            else Sofar(start, log0, done + es, h.view, log, json)
  {
    ApplyAllConcat(start, done, es, json);
    ApplyAllConcat(start, done + es, more, json);
    Assoc(done, es, more);
    Assoc(log0, Handled(start, done, json), Handled(was, es, json));
    assert Handled(start, done + es, json) + [] == Handled(start, done + es, json);
  }

  /** The events that the chunks from the `k`th on add. */
  ghost function EventsAfter(chunks: seq<string>, k: nat): (es: seq<Event>)
    requires k <= |chunks|
    ensures ClientEvents(Concat(chunks)) == ClientEvents(Concat(chunks[..k])) + es
  {
    ConcatSplit(chunks, k);
    ReadOn(Concat(chunks[..k]), Concat(chunks[k..]));
    ClientEvents(Leftover(Concat(chunks[..k])) + Concat(chunks[k..]))
  }

  // ----- what a frame looks like from here -----

  ghost predicate OneLine(e: Event) {
    '\n' !in e.name && '\n' !in e.data
  }

  /** The event a written frame comes back as: its payload trimmed, or nothing if that is blank. */
  function Received(e: Event): (es: seq<Event>)
    ensures |es| <= 1
  {
    var name := if e.name == "" then "message" else Trim(JsBlanks, e.name);
    var data := Trim(JsBlanks, e.data);
    if data == "" then [] else [Event(name, data)]
  }

  function ReceivedAll(es: seq<Event>): seq<Event> {
    if es == [] then [] else Received(es[0]) + ReceivedAll(es[1..])
  }

  lemma {:induction false} ReceivedAllConcat(a: seq<Event>, b: seq<Event>)
    ensures ReceivedAll(a + b) == ReceivedAll(a) + ReceivedAll(b)
  {
    if a == [] {
      assert a + b == b;
    } else {
      assert (a + b)[1..] == a[1..] + b;
      ReceivedAllConcat(a[1..], b);
    }
  }

  lemma EventLine(name: string, e: Event)
    ensures ReadLine("event: " + name, e) == e.(name := Trim(JsBlanks, name))
  {
    assert ("event: " + name)[6..] == [' '] + name;
    TrimLeadingBlank(JsBlanks, ' ', name);
  }

  lemma DataLine(data: string, e: Event)
    ensures ReadLine("data: " + data, e) == e.(data := e.data + Trim(JsBlanks, data))
  {
    assert ("data: " + data)[5..] == [' '] + data;
    TrimLeadingBlank(JsBlanks, ' ', data);
  }

  lemma SplitBlock(e: Event)
    requires OneLine(e)
    ensures Split(Block(e), '\n') == (if e.name == "" then [] else ["event: " + e.name]) + ["data: " + e.data]
  {
    var data := "data: " + e.data;
    SplitSingle(data, '\n');
    if e.name == "" {
      assert Block(e) == data;
    } else {
      var head := "event: " + e.name;
      assert Block(e) == head + ['\n'] + data;
      SplitStep(head, '\n', data);
    }
  }

  lemma ReadDataLine(data: string, name: string)
    ensures ReadLines(["data: " + data], Event(name, "")) == Event(name, Trim(JsBlanks, data))
  {
    var lines := ["data: " + data];
    DataLine(data, Event(name, ""));
    assert "" + Trim(JsBlanks, data) == Trim(JsBlanks, data);
    assert lines[1..] == [];
  }

  lemma DispatchOfBlock(e: Event)
    requires OneLine(e)
    ensures Dispatch(Block(e)) == Received(e)
  {
    SplitBlock(e);
    var last := ["data: " + e.data];
    if e.name == "" {
      assert [] + last == last;
      ReadDataLine(e.data, "message");
    } else {
      var lines := ["event: " + e.name] + last;
      EventLine(e.name, Event("message", ""));
      assert lines[1..] == last;
      ReadDataLine(e.data, Trim(JsBlanks, e.name));
    }
  }

  lemma BlockHasNoBreak(e: Event, tail: string)
    requires OneLine(e)
    ensures FindBreak(Encode(e) + tail) == |Block(e)|
  {
    var s, n := Encode(e) + tail, |Block(e)|;
    assert BreakAt(s, n);
    assert s[n - 1] == Block(e)[n - 1];
    assert forall j :: 0 <= j < n && s[j] == '\n' ==> j == 6 + |e.name| + 1 && s[j + 1] == 'd';
  }

  lemma ReadFrame(e: Event, tail: string)
    requires OneLine(e)
    ensures ClientEvents(Encode(e) + tail) == Received(e) + ClientEvents(tail)
    ensures Leftover(Encode(e) + tail) == Leftover(tail)
  {
    BlockHasNoBreak(e, tail);
    DispatchOfBlock(e);
    assert Encode(e) + tail == Block(e) + ("\n\n" + tail);
    CutBlock(Block(e), tail);
  }

  /**
   A stream of one-line frames is read back frame by frame, nothing left in the buffer.
   With `Page.RunStreaming` and `CutAnywhere` this covers every chunking and every cut.
   */
  lemma {:induction false} ReadBack(es: seq<Event>)
    requires forall i :: 0 <= i < |es| ==> OneLine(es[i])
    ensures ClientEvents(EncodeAll(es)) == ReceivedAll(es)
    ensures Leftover(EncodeAll(es)) == ""
  {
    if es == [] {
    } else {
      ReadBack(es[1..]);
      ReadFrame(es[0], EncodeAll(es[1..]));
    }
  }
}
