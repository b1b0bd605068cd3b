/**
 The event-stream parser of the WHATWG HTML Standard, sections 9.2.5 and 9.2.6, and exactly
 when the page's simpler reader agrees with it on what the server writes. Only the type and
 the data of an event are kept: the page looks at nothing else.
 */
module EventStandard {
  import opened Text
  import opened EventFormat
  import opened EventClient

  // ----- the standard's parser -----

  /** Position of the first line terminator, or `|s|`. */
  function FirstEol(s: string): (i: nat)
    ensures i <= |s|
  {
    if s == "" || s[0] == '\n' || s[0] == '\r' then 0 else 1 + FirstEol(s[1..])
  }

  /** CR LF is one terminator; a lone CR or LF is one as well. */
  function SkipEol(s: string, i: nat): (j: nat)
    requires i < |s|
    ensures i < j <= |s|
  {
    if s[i] == '\r' && i + 1 < |s| && s[i + 1] == '\n' then i + 2 else i + 1
  }

  /** The event type buffer and the data buffer. */
  datatype Pending = Pending(event: string, data: string)

  const FRESH := Pending("", "")

  function SetField(name: string, value: string, p: Pending): Pending {
    if name == "event" then p.(event := value)
    else if name == "data" then p.(data := p.data + (value + "\n"))
    else p
  }

  function Field(line: string, p: Pending): Pending
    requires line != ""
  {
    var i := IndexOf(line, ':');
    if i == 0 then p
    else if i == |line| then SetField(line, "", p)
    else
      var value := line[i + 1..];
      SetField(line[..i], if value != "" && value[0] == ' ' then value[1..] else value, p)
  }

  /** What a blank line dispatches. */
  function Fire(p: Pending): seq<Event> {
    if p.data == "" then []
    else [Event(if p.event == "" then "message" else p.event, p.data[..|p.data| - 1])]
  }

  function Interpret(s: string, p: Pending): seq<Event>
    decreases |s|
  {
    var i := FirstEol(s);
    if i == |s| then []
    else
      var rest := s[SkipEol(s, i)..];
      if i == 0 then Fire(p) + Interpret(rest, FRESH) else Interpret(rest, Field(s[..i], p))
  }

  function StandardEvents(s: string): seq<Event> {
    Interpret(if s != "" && s[0] == '\U{FEFF}' then s[1..] else s, FRESH)
  }

  // ----- one line at a time -----

  ghost predicate EolFree(s: string) {
    '\n' !in s && '\r' !in s
  }

  lemma {:induction false} FirstEolOfLine(line: string, eol: char, tail: string)
    requires EolFree(line) && (eol == '\n' || eol == '\r')
    ensures FirstEol(line + ([eol] + tail)) == |line|
  {
    if line == "" {
    } else {
      assert (line + ([eol] + tail))[1..] == line[1..] + ([eol] + tail);
      FirstEolOfLine(line[1..], eol, tail);
    }
  }

  function AfterLine(line: string, tail: string, p: Pending): seq<Event> {
    if line == "" then Fire(p) + Interpret(tail, FRESH) else Interpret(tail, Field(line, p))
  }

  lemma LineStep(line: string, eol: char, tail: string, p: Pending)
    requires EolFree(line)
    requires eol == '\n' || (eol == '\r' && !HasPrefix(tail, "\n"))
    ensures Interpret(line + ([eol] + tail), p) == AfterLine(line, tail, p)
  {
    var s, n := line + ([eol] + tail), |line|;
    FirstEolOfLine(line, eol, tail);
    assert s[..n] == line && s[n + 1..] == tail;
    assert s[n] == eol && (tail != "" ==> s[n + 1] == tail[0]);
    assert SkipEol(s, n) == n + 1;
  }

  lemma LineStepCrLf(line: string, tail: string, p: Pending)
    requires EolFree(line)
    ensures Interpret(line + (['\r'] + ("\n" + tail)), p) == AfterLine(line, tail, p)
  {
    var s, n := line + (['\r'] + ("\n" + tail)), |line|;
    FirstEolOfLine(line, '\r', "\n" + tail);
    assert s[..n] == line && s[n + 2..] == tail;
    assert SkipEol(s, n) == n + 2;
  }

  lemma BlankLine(tail: string, p: Pending)
    ensures Interpret("\n" + tail, p) == Fire(p) + Interpret(tail, FRESH)
  {
    LineStep("", '\n', tail, p);
    assert "" + (['\n'] + tail) == "\n" + tail;
  }

  // ----- up to the end of a frame -----

  /** What text `q`, which has no LF, dispatches when a frame's closing blank line follows it. */
  function InBlock(q: string, p: Pending): seq<Event>
    decreases |q|
  {
    var i := IndexOf(q, '\r');
    if i == |q| then
      if q == "" then Fire(p) else Fire(Field(q, p))
    else
      var fired := if i == 0 then Fire(p) else [];
      var next := if i == 0 then FRESH else Field(q[..i], p);
      fired + (if i + 1 == |q| then Fire(next) else InBlock(q[i + 1..], next))
  }

  lemma NoCr(q: string)
    requires '\n' !in q
    ensures EolFree(q[..IndexOf(q, '\r')])
  {
    var line := q[..IndexOf(q, '\r')];
    assert forall k :: 0 <= k < |line| ==> line[k] == q[k] && q[k] in q;
  }

  /** What a frame's closing blank line leaves to read. */
  function Closed(tail: string): string {
    "\n" + ("\n" + tail)
  }

  lemma BlockEndsNoCr(q: string, p: Pending, tail: string)
    requires EolFree(q)
    ensures Interpret(q + Closed(tail), p) == (if q == "" then Fire(p) else Fire(Field(q, p))) + Interpret(tail, FRESH)
  {
    LineStep(q, '\n', "\n" + tail, p);
    assert q + Closed(tail) == q + (['\n'] + ("\n" + tail));
    BlankLine(tail, if q == "" then FRESH else Field(q, p));
    assert [] + Interpret(tail, FRESH) == Interpret(tail, FRESH);
  }

  /** A line that ends in a lone CR, or in the CR that the closing LF completes. */
  lemma LineBeforeCr(line: string, p: Pending, more: string, tail: string)
    requires EolFree(line) && '\n' !in more
    ensures Interpret(line + (['\r'] + (more + Closed(tail))), p) ==
            AfterLine(line, if more == "" then "\n" + tail else more + Closed(tail), p)
  {
    if more == "" {
      assert more + Closed(tail) == Closed(tail);
      LineStepCrLf(line, "\n" + tail, p);
    } else {
      assert more[0] in more && (more + Closed(tail))[0] == more[0];
      LineStep(line, '\r', more + Closed(tail), p);
    }
  }

  function Fired(line: string, p: Pending): seq<Event> {
    if line == "" then Fire(p) else []
  }

  function Carried(line: string, p: Pending): Pending {
    if line == "" then FRESH else Field(line, p)
  }

  lemma AfterLineIs(line: string, tail: string, p: Pending)
    ensures AfterLine(line, tail, p) == Fired(line, p) + Interpret(tail, Carried(line, p))
  {
    assert [] + Interpret(tail, Carried(line, p)) == Interpret(tail, Carried(line, p));
  }

  lemma NoNewlineAfter(q: string, i: nat)
    requires '\n' !in q && i <= |q|
    ensures '\n' !in q[i..]
  {
    assert forall k :: 0 <= k < |q[i..]| ==> q[i..][k] == q[i + k] && q[i + k] in q;
  }

  lemma {:induction false} BlockEnds(q: string, p: Pending, tail: string)
    requires '\n' !in q
    ensures Interpret(q + Closed(tail), p) == InBlock(q, p) + Interpret(tail, FRESH)
    decreases |q|
  {
    var i, rest := IndexOf(q, '\r'), Interpret(tail, FRESH);
    NoCr(q);
    if i == |q| {
      assert q[..i] == q;
      BlockEndsNoCr(q, p, tail);
    } else {
      var line, more := q[..i], q[i + 1..];
      NoNewlineAfter(q, i + 1);
      assert q + Closed(tail) == line + (['\r'] + (more + Closed(tail)));
      LineBeforeCr(line, p, more, tail);
      AfterLineIs(line, if more == "" then "\n" + tail else more + Closed(tail), p);
      if more == "" {
        BlankLine(tail, Carried(line, p));
        Assoc(Fired(line, p), Fire(Carried(line, p)), rest);
      } else {
        BlockEnds(more, Carried(line, p), tail);
        Assoc(Fired(line, p), InBlock(more, Carried(line, p)), rest);
      }
    }
  }

  lemma InBlockNoCr(q: string, p: Pending)
    requires '\r' !in q
    ensures InBlock(q, p) == if q == "" then Fire(p) else Fire(Field(q, p))
  {
    IndexOfNone(q, '\r');
  }

  lemma InBlockCr(line: string, more: string, p: Pending)
    requires '\r' !in line
    ensures InBlock(line + ['\r'] + more, p) ==
            Fired(line, p) + (if more == "" then Fire(Carried(line, p)) else InBlock(more, Carried(line, p)))
  {
    var q := line + ['\r'] + more;
    IndexOfSeparator(line, '\r', more);
    assert q[..|line|] == line && q[|line| + 1..] == more;
  }

  // ----- one frame -----

  /** The names `streamRun` uses, or any other trimmed single-line name. */
  ghost predicate NamedFrame(e: Event) {
    e.name != "" && EolFree(e.name) && IsTrimmed(JsBlanks, e.name) && '\n' !in e.data
  }

  /** What the first line of a payload, up to its first CR, leaves pending. */
  function FirstLine(e: Event): Pending {
    Pending(e.name, e.data[..IndexOf(e.data, '\r')] + "\n")
  }

  /** The events of one frame: those of the text behind the first CR, or just the first line's. */
  function StandardFrame(e: Event): seq<Event> {
    var i := IndexOf(e.data, '\r');
    if i + 1 < |e.data| then InBlock(e.data[i + 1..], FirstLine(e)) else Fire(FirstLine(e))
  }

  lemma EventField(name: string)
    ensures Field("event: " + name, FRESH) == Pending(name, "")
  {
    var line := "event: " + name;
    IndexOfSeparator("event", ':', " " + name);
    assert line == "event" + [':'] + (" " + name);
    assert line[..5] == "event" && line[6..] == " " + name && (" " + name)[1..] == name;
  }

  lemma DataField(data: string, p: Pending)
    ensures Field("data: " + data, p) == p.(data := p.data + (data + "\n"))
  {
    var line := "data: " + data;
    IndexOfSeparator("data", ':', " " + data);
    assert line == "data" + [':'] + (" " + data);
    assert line[..4] == "data" && line[5..] == " " + data && (" " + data)[1..] == data;
  }

  lemma InBlockLine(head: string, data: string, p: Pending, next: Pending)
    requires head != "" && '\r' !in head
    requires Field(head + data[..IndexOf(data, '\r')], p) == next
    ensures var i := IndexOf(data, '\r');
            InBlock(head + data, p) == if i + 1 < |data| then InBlock(data[i + 1..], next) else Fire(next)
  {
    var i := IndexOf(data, '\r');
    var line := head + data[..i];
    if i == |data| {
      assert data[..i] == data;
      InBlockNoCr(line, p);
    } else {
      var more := data[i + 1..];
      assert head + data == line + ['\r'] + more;
      InBlockCr(line, more, p);
      assert Fired(line, p) == [] && Carried(line, p) == next;
    }
  }

  lemma FrameData(e: Event)
    requires NamedFrame(e)
    ensures InBlock("data: " + e.data, Pending(e.name, "")) == StandardFrame(e)
  {
    var line := e.data[..IndexOf(e.data, '\r')];
    DataField(line, Pending(e.name, ""));
    assert "" + (line + "\n") == line + "\n";
    InBlockLine("data: ", e.data, Pending(e.name, ""), FirstLine(e));
  }

  lemma {:induction false} FrameStep(e: Event, tail: string)
    requires NamedFrame(e)
    ensures Interpret(Encode(e) + tail, FRESH) == StandardFrame(e) + Interpret(tail, FRESH)
  {
    var head, data := "event: " + e.name, "data: " + e.data;
    var after := data + Closed(tail);
    assert Encode(e) + tail == head + (['\n'] + after);
    LineStep(head, '\n', after, FRESH);
    EventField(e.name);
    BlockEnds(data, Pending(e.name, ""), tail);
    FrameData(e);
  }

  // ----- agreement -----

  /** A payload whose trimmed text stands at its very start, followed by nothing or by a CR. */
  ghost predicate Plain(data: string) {
    var t := Trim(JsBlanks, data);
    t != "" && '\r' !in t && t <= data && (t == data || data[|t|] == '\r')
  }

  ghost predicate EndsLine(data: string) {
    data != "" && data[|data| - 1] == '\n'
  }

  lemma FireKeeps(p: Pending)
    requires EndsLine(p.data)
    ensures Fire(p) != [] && Fire(p)[0].data + "\n" == p.data
  {
  }

  /** Data already collected is dispatched first, whatever the rest of the frame holds. */
  lemma {:induction false} FirstFired(q: string, p: Pending)
    requires EndsLine(p.data)
    ensures InBlock(q, p) != [] && p.data <= InBlock(q, p)[0].data + "\n"
    decreases |q|
  {
    var i := IndexOf(q, '\r');
    if i == |q| {
      assert q[..i] == q;
      InBlockNoCr(q, p);
      if q == "" {
        FireKeeps(p);
      } else {
        FieldExtends(q, p);
        FireKeeps(Field(q, p));
      }
    } else {
      var line, more := q[..i], q[i + 1..];
      assert q == line + ['\r'] + more;
      InBlockCr(line, more, p);
      if line == "" {
        FireKeeps(p);
      } else {
        FieldExtends(line, p);
        if more == "" {
          FireKeeps(Field(line, p));
        } else {
          FirstFired(more, Field(line, p));
        }
      }
    }
  }

  lemma FieldExtends(line: string, p: Pending)
    requires line != "" && EndsLine(p.data)
    ensures EndsLine(Field(line, p).data) && p.data <= Field(line, p).data
  {
  }

  lemma BlankField(line: string, p: Pending)
    requires line != "" && AllBlank(JsBlanks, line)
    ensures Field(line, p) == p
  {
    assert forall k :: 0 <= k < |line| ==> line[k] != ':';
    IndexOfNone(line, ':');
    assert !IsBlank(JsBlanks, 'e') && !IsBlank(JsBlanks, 'd');
  }

  /** Blanks after the data add nothing. */
  lemma {:induction false} BlankTail(q: string, p: Pending)
    requires AllBlank(JsBlanks, q)
    ensures InBlock(q, p) == Fire(p)
    decreases |q|
  {
    var i := IndexOf(q, '\r');
    if i > 0 {
      BlankField(q[..i], p);
      assert q[..|q|] == q;
    }
    if i + 1 < |q| {
      BlankTail(q[i + 1..], if i == 0 then FRESH else Field(q[..i], p));
    }
  }

  lemma LeadingBlank(a: string, s: string)
    requires AllBlank(JsBlanks, a) && s != ""
    ensures a != "" ==> IsBlank(JsBlanks, (a + s)[0])
    ensures a == "" ==> a + s == s
  {
  }

  /** A plain payload is its trimmed text, then nothing but blanks, the first of them a CR. */
  lemma PlainShape(data: string) returns (b: string)
    requires Plain(data)
    ensures AllBlank(JsBlanks, b) && data == Trim(JsBlanks, data) + b
    ensures IndexOf(data, '\r') == |Trim(JsBlanks, data)|
  {
    var t := Trim(JsBlanks, data);
    var a, c := TrimSpec(JsBlanks, data);
    b := c;
    Assoc(a, t, b);
    LeadingBlank(a, t + b);
    assert !IsBlank(JsBlanks, t[0]) && data[0] == t[0];
    FirstCr(t, b, data);
  }

  lemma FirstCr(t: string, b: string, data: string)
    requires data == t + b && '\r' !in t && (t == data || data[|t|] == '\r')
    ensures IndexOf(data, '\r') == |t|
  {
    if t == data {
      IndexOfNone(t, '\r');
    } else {
      assert data == t + ['\r'] + data[|t| + 1..];
      IndexOfSeparator(t, '\r', data[|t| + 1..]);
    }
  }

  lemma PlainAgrees(e: Event)
    requires NamedFrame(e) && Plain(e.data)
    ensures StandardFrame(e) == Received(e)
  {
    var t := Trim(JsBlanks, e.data);
    var b := PlainShape(e.data);
    assert e.data[..|t|] == t;
    if |t| + 1 < |e.data| {
      assert e.data[|t| + 1..] == b[1..];
      BlankTail(e.data[|t| + 1..], FirstLine(e));
    }
    TrimFixed(JsBlanks, e.name);
  }

  /** The first event of a frame starts with its first line. */
  lemma {:induction false} FrameFires(e: Event)
    requires NamedFrame(e)
    ensures StandardFrame(e) != [] && FirstLine(e).data <= StandardFrame(e)[0].data + "\n"
  {
    var i := IndexOf(e.data, '\r');
    if i + 1 < |e.data| {
      FirstFired(e.data[i + 1..], FirstLine(e));
    }
  }

  lemma AgreesPlain(e: Event)
    requires NamedFrame(e) && StandardFrame(e) == Received(e)
    ensures Plain(e.data)
  {
    var t := Trim(JsBlanks, e.data);
    FrameFires(e);
    var a, b := TrimSpec(JsBlanks, e.data);
    OneLinePart(a, t, b);
    StartsPlain(e.data, t, FirstLine(e).data);
  }

  lemma StartsPlain(data: string, t: string, first: string)
    requires '\n' !in data && '\n' !in t && first == data[..IndexOf(data, '\r')] + "\n" && first <= t + "\n"
    ensures '\r' !in t && t <= data && (t == data || data[|t|] == '\r')
  {
    var v := data[..IndexOf(data, '\r')];
    SameLine(v, t);
    NoCr(data);
    assert v == t;
  }

  lemma OneLinePart(a: string, t: string, b: string)
    requires '\n' !in a + t + b
    ensures '\n' !in t
  {
    assert forall k :: 0 <= k < |t| ==> t[k] == (a + t + b)[|a| + k] && (a + t + b)[|a| + k] in a + t + b;
  }

  lemma SameLine(v: string, t: string)
    requires v + "\n" <= t + "\n" && '\n' !in t
    ensures v == t
  {
    assert (v + "\n")[|v|] == (t + "\n")[|v|];
    assert forall k :: 0 <= k < |t| ==> (t + "\n")[k] == t[k] && t[k] in t;
    assert v == (v + "\n")[..|v|] == (t + "\n")[..|t|] == t;
  }

  ghost predicate AllNamed(es: seq<Event>) {
    forall i :: 0 <= i < |es| ==> NamedFrame(es[i])
  }

  function StandardFrames(es: seq<Event>): seq<Event> {
    if es == [] then [] else StandardFrame(es[0]) + StandardFrames(es[1..])
  }

  lemma {:induction false} FramesInterpreted(es: seq<Event>)
    requires AllNamed(es)
    ensures Interpret(EncodeAll(es), FRESH) == StandardFrames(es)
  {
    if es == [] {
    } else {
      FramesInterpreted(es[1..]);
      FrameStep(es[0], EncodeAll(es[1..]));
    }
  }

  lemma {:induction false} CountFrames(es: seq<Event>)
    requires AllNamed(es)
    ensures |StandardFrames(es)| >= |es| >= |ReceivedAll(es)|
  {
    if es == [] {
    } else {
      CountFrames(es[1..]);
      FrameFires(es[0]);
    }
  }

  ghost predicate AllPlain(es: seq<Event>) {
    forall i :: 0 <= i < |es| ==> Plain(es[i].data)
  }

  lemma {:induction false} FramesAgree(es: seq<Event>)
    requires AllNamed(es)
    ensures StandardFrames(es) == ReceivedAll(es) <==> AllPlain(es)
  {
    if es == [] {
    } else {
      var e, more := es[0], es[1..];
      FramesAgree(more);
      CountFrames(more);
      FrameFires(e);
      assert AllPlain(es) <==> Plain(e.data) && AllPlain(more);
      if Plain(e.data) {
        PlainAgrees(e);
      }
      if StandardFrames(es) == ReceivedAll(es) {
        assert |StandardFrame(e)| == |Received(e)|;
        assert StandardFrames(es)[..|StandardFrame(e)|] == StandardFrame(e);
        assert ReceivedAll(es)[..|Received(e)|] == Received(e);
        assert StandardFrames(es)[|StandardFrame(e)|..] == StandardFrames(more);
        assert ReceivedAll(es)[|Received(e)|..] == ReceivedAll(more);
        AgreesPlain(e);
      }
    }
  }

  /**
   The page reads a stream of named frames as the standard does exactly when every payload is
   plain. A payload fails to be plain by being all blank, by starting with a blank, by ending in
   blanks of which the first is not a CR, or by holding a CR before its last visible character.
   */
  lemma PageMeetsStandard(es: seq<Event>)
    requires AllNamed(es)
    ensures StandardEvents(EncodeAll(es)) == ClientEvents(EncodeAll(es)) <==> AllPlain(es)
  {
    FramesInterpreted(es);
    FramesAgree(es);
    assert forall i :: 0 <= i < |es| ==> NamedFrame(es[i]) ==> OneLine(es[i]);
    ReadBack(es);
    if es != [] {
      assert EncodeAll(es)[0] == Encode(es[0])[0] == 'e';
    }
  }

  /** A payload with a CR inside: the page hands on the CR, the standard stops the line there. */
  lemma CarriageReturnSplits()
    ensures var es := [Event("message", "a\rb")];
            AllNamed(es) && StandardEvents(EncodeAll(es)) != ClientEvents(EncodeAll(es))
  {
    var es := [Event("message", "a\rb")];
    var t := Trim(JsBlanks, "a\rb");
    TrimFixed(JsBlanks, "a\rb");
    assert t[1] == '\r';
    PageMeetsStandard(es);
    assert !Plain(es[0].data);
  }
}
