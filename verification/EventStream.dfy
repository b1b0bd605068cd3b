/** A streaming run: the child's output is relayed line by line as events, then closed off. */
module EventStream {
  import opened Text
  import opened JsonText
  import opened EventFormat
  import opened Sessions

  // ----- what the child process does -----

  /** How reading its output ends: at the end, with a read error, or at a line over the buffer limit. */
  datatype ScanEnd = Eof | ReadError(message: string) | TooLong

  datatype Exit = ExitOk | ExitFailed(stderr: string) | WaitFailed(message: string)

  datatype Child = Child(stdout: string, end: ScanEnd, exit: Exit)

  /** Reads the session id out of an output line; "" when there is none. */
  type Extract = string -> string

  function DropCr(line: string): string {
    if line != "" && line[|line| - 1] == '\r' then line[..|line| - 1] else line
  }

  function DropCrs(lines: seq<string>): seq<string> {
    if lines == [] then [] else [DropCr(lines[0])] + DropCrs(lines[1..])
  }

  /** The tokens of `bufio.Scanner`: an unfinished last line counts, but not one that is too long. */
  function ScannedLines(c: Child): seq<string> {
    var parts := Split(c.stdout, '\n');
    var last := parts[|parts| - 1];
    DropCrs(parts[..|parts| - 1] + (if last == "" || c.end.TooLong? then [] else [last]))
  }

  // ----- what is sent -----

  function Messages(lines: seq<string>): seq<Event> {
    if lines == [] then []
    else (if lines[0] == "" then [] else [Event("message", lines[0])]) + Messages(lines[1..])
  }

  /** The id known after these lines, given the one known before them. */
  function LearnId(known: string, lines: seq<string>, extract: Extract): string
    decreases |lines|
  {
    if lines == [] then known
    else LearnId(if known == "" && lines[0] != "" then extract(lines[0]) else known, lines[1..], extract)
  }

  function Truncate(s: string, n: nat): string {
    if |s| <= n then s else s[..n] + "\U{2026}"
  }

  function Failure(c: Child): Option<string> {
    match c.end
    case ReadError(m) => Some(m)
    case TooLong => Some("bufio.Scanner: token too long")
    case Eof =>
      match c.exit
      case ExitOk => None
      case ExitFailed(stderr) => Some(Truncate(stderr, 2000))
      case WaitFailed(m) => Some(Truncate(m, 2000))
  }

  function ErrorData(reason: string, id: string): string {
    Marshal([Member("error", reason), Member("session_id", id)])
  }

  function DoneData(id: string): string {
    Marshal([Member("session_id", id)])
  }

  function Tail(errorData: Option<string>, doneData: string): seq<Event> {
    (if errorData.Some? then [Event("error", errorData.value)] else []) + [Event("done", doneData)]
  }

  /** What follows the messages. */
  function Closing(failure: Option<string>, id: string): seq<Event> {
    Tail(if failure.Some? then Some(ErrorData(failure.value, id)) else None, DoneData(id))
  }

  function RunId(c: Child, pinned: string, extract: Extract): string {
    LearnId(pinned, ScannedLines(c), extract)
  }

  function AllFrames(c: Child, pinned: string, extract: Extract): seq<Event> {
    Messages(ScannedLines(c)) + Closing(Failure(c), RunId(c, pinned, extract))
  }

  // ----- the connection -----

  function Clip(room: Option<nat>, s: string): string {
    if room.Some? && room.value < |s| then s[..room.value] else s
  }

  lemma ClipGrows(room: Option<nat>, a: string, b: string)
    ensures Clip(room, Clip(room, a) + b) == Clip(room, a + b)
    ensures Clip(room, a) != a ==> Clip(room, a + b) == Clip(room, a)
    ensures Clip(room, a) <= a
  {
  }

  /** A frame whose writing was begun, and the session store at that moment. */
  datatype Attempt = Attempt(event: Event, recs: Recs)

  /** The connection takes all these frames without breaking. */
  predicate Carries(room: Option<nat>, flushLimit: Option<nat>, es: seq<Event>) {
    (room.Some? ==> |EncodeAll(es)| <= room.value) && (flushLimit.Some? ==> |es| <= flushLimit.value)
  }

  function Attempts(es: seq<Event>, recs: Recs): seq<Attempt> {
    seq(|es|, i requires 0 <= i < |es| => Attempt(es[i], recs))
  }

  /**
   The response. The connection takes `room` characters and `flushLimit` flushes before it
   breaks; `None` is a connection that never does.
   */
  class Response {
    var sent: string
    var flushes: nat
    const room: Option<nat>
    const flushLimit: Option<nat>
    ghost var journal: seq<Attempt>

    constructor (room: Option<nat>, flushLimit: Option<nat>)
      ensures sent == "" && flushes == 0 && journal == []
      ensures this.room == room && this.flushLimit == flushLimit
    {
      this.sent, this.flushes, this.journal := "", 0, [];
      this.room, this.flushLimit := room, flushLimit;
    }

    /** Exactly these frames have gone out whole, all begun while the store held `recs`. */
    ghost predicate At(es: seq<Event>, recs: Recs)
      reads this
    {
      && sent == EncodeAll(es) && flushes == |es|
      && Carries(room, flushLimit, es)
      && journal == Attempts(es, recs)
    }

    /** The connection broke in the `n`th of these frames: those before are out, that one is clipped. */
    ghost predicate BrokeAt(es: seq<Event>, recs: Recs, n: nat)
      reads this
      requires 0 < n <= |es|
    {
      && Carries(room, flushLimit, es[..n - 1]) && !Carries(room, flushLimit, es[..n])
      && sent == Clip(room, EncodeAll(es[..n]))
      && journal == Attempts(es[..n], recs)
    }

    /** The connection broke in one of these frames. */
    ghost predicate CutShort(es: seq<Event>, recs: Recs)
      reads this
    {
      exists n :: 0 < n <= |es| && BrokeAt(es, recs, n)
    }

    method Write(p: string) returns (ok: bool)
      requires Clip(room, sent) == sent
      modifies this`sent
      ensures sent == Clip(room, old(sent) + p)
      ensures ok <==> sent == old(sent) + p
    {
      ClipGrows(room, sent, p);
      ok := room.None? || |sent + p| <= room.value;
      sent := Clip(room, sent + p);
    }

    method Flush() returns (ok: bool)
      modifies this`flushes
      ensures flushes == old(flushes) + 1
      ensures ok <==> flushLimit.None? || old(flushes) < flushLimit.value
    {
      ok := flushLimit.None? || flushes < flushLimit.value;
      flushes := flushes + 1;
    }

    method WriteSse(e: Event, ghost recs: Recs) returns (ok: bool)
      requires Clip(room, sent) == sent
      modifies this
      ensures sent == Clip(room, old(sent) + Encode(e))
      ensures ok <==> sent == old(sent) + Encode(e) && (flushLimit.None? || old(flushes) < flushLimit.value)
      ensures ok ==> flushes == old(flushes) + 1
      ensures journal == old(journal) + [Attempt(e, recs)]
    {
      journal := journal + [Attempt(e, recs)];
      ghost var start := sent;
      ghost var head := if e.name != "" then "event: " + e.name + "\n" else "";
      assert Encode(e) == head + "data: " + e.data + "\n\n";
      Pieces(room, start, head, e.data);
      if e.name != "" {
        ok := Write("event: " + e.name + "\n");
        if !ok {
          return;
        }
      }
      assert sent == start + head;
      ok := Write("data: ");
      if !ok {
        return;
      }
      ok := Write(e.data);
      if !ok {
        return;
      }
      ok := Write("\n\n");
      if !ok {
        return;
      }
      ok := Flush();
    }
  }

  /** A write that falls short leaves exactly what the whole frame, clipped, would have left. */
  lemma Pieces(room: Option<nat>, start: string, head: string, data: string)
    requires Clip(room, start) == start
    ensures var whole := start + (head + "data: " + data + "\n\n");
            && (Clip(room, start + head) != start + head ==> Clip(room, whole) == Clip(room, start + head))
            && (Clip(room, start + head + "data: ") != start + head + "data: "
                ==> Clip(room, whole) == Clip(room, start + head + "data: "))
            && (Clip(room, start + head + "data: " + data) != start + head + "data: " + data
                ==> Clip(room, whole) == Clip(room, start + head + "data: " + data))
            && whole == start + head + "data: " + data + "\n\n"
            && start + head + "" == start + head && start + "" == start
  {
    var whole := start + (head + "data: " + data + "\n\n");
    assert whole == start + head + "data: " + data + "\n\n";
    assert whole == (start + head) + ("data: " + data + "\n\n");
    assert whole == (start + head + "data: ") + (data + "\n\n");
    ClipGrows(room, start + head, "data: " + data + "\n\n");
    ClipGrows(room, start + head + "data: ", data + "\n\n");
    ClipGrows(room, start + head + "data: " + data, "\n\n");
  }

  // ----- the run -----

  lemma {:induction false} MessagesConcat(a: seq<string>, b: seq<string>)
    ensures Messages(a + b) == Messages(a) + Messages(b)
  {
    if a == [] {
      assert a + b == b;
    } else {
      assert (a + b)[1..] == a[1..] + b;
      MessagesConcat(a[1..], b);
    }
  }

  lemma {:induction false} LearnIdConcat(known: string, a: seq<string>, b: seq<string>, extract: Extract)
    ensures LearnId(known, a + b, extract) == LearnId(LearnId(known, a, extract), b, extract)
    decreases |a|
  {
    if a == [] {
      assert a + b == b;
    } else {
      assert (a + b)[1..] == a[1..] + b;
      LearnIdConcat(if known == "" && a[0] != "" then extract(a[0]) else known, a[1..], b, extract);
    }
  }

  /** One more line: what it adds to the messages and to the known id. */
  lemma OneMoreLine(lines: seq<string>, i: nat, pinned: string, extract: Extract)
    requires i < |lines|
    ensures Messages(lines[..i + 1]) == Messages(lines[..i]) + Messages([lines[i]])
    ensures Messages(lines) == Messages(lines[..i + 1]) + Messages(lines[i + 1..])
    ensures LearnId(pinned, lines[..i + 1], extract) ==
            LearnId(LearnId(pinned, lines[..i], extract), [lines[i]], extract)
  {
    assert lines[..i + 1] == lines[..i] + [lines[i]];
    assert lines == lines[..i + 1] + lines[i + 1..];
    MessagesConcat(lines[..i], [lines[i]]);
    MessagesConcat(lines[..i + 1], lines[i + 1..]);
    LearnIdConcat(pinned, lines[..i], [lines[i]], extract);
  }

  lemma OneLineOnly(line: string, known: string, extract: Extract)
    ensures Messages([line]) == if line == "" then [] else [Event("message", line)]
    ensures LearnId(known, [line], extract) == if known == "" && line != "" then extract(line) else known
  {
    assert [line][1..] == [];
  }

  lemma AttemptsSnoc(es: seq<Event>, e: Event, recs: Recs)
    ensures Attempts(es + [e], recs) == Attempts(es, recs) + [Attempt(e, recs)]
  {
  }

  /** Send one frame after those in `before`. */
  method Send(resp: Response, e: Event, ghost before: seq<Event>, ghost recs: Recs) returns (ok: bool)
    requires resp.At(before, recs)
    modifies resp
    ensures ok <==> Carries(resp.room, resp.flushLimit, before + [e])
    ensures ok ==> resp.At(before + [e], recs)
    ensures !ok ==> resp.sent == Clip(resp.room, EncodeAll(before + [e]))
                    && resp.journal == Attempts(before + [e], recs)
  {
    EncodeAllSnoc(before, e);
    AttemptsSnoc(before, e, recs);
    ClipGrows(resp.room, EncodeAll(before + [e]), "");
    ok := resp.WriteSse(e, recs);
  }

  /** A connection that does not carry some frames does not carry more of them. */
  lemma CarriesPrefix(room: Option<nat>, flushLimit: Option<nat>, a: seq<Event>, b: seq<Event>)
    requires a <= b && Carries(room, flushLimit, b)
    ensures Carries(room, flushLimit, a)
  {
    assert a + b[|a|..] == b;
    EncodeAllConcat(a, b[|a|..]);
  }

  /** The scanner loop. False means the client went away and the handler returns at once. */
  method RelayLines(resp: Response, lines: seq<string>, pinned: string, extract: Extract, ghost recs: Recs)
    returns (complete: bool, sessionId: string)
    requires resp.At([], recs)
    modifies resp
    ensures complete <==> Carries(resp.room, resp.flushLimit, Messages(lines))
    ensures complete ==> resp.At(Messages(lines), recs) && sessionId == LearnId(pinned, lines, extract)
    ensures !complete ==> resp.CutShort(Messages(lines), recs)
  {
    sessionId := pinned;
    for i := 0 to |lines|
      invariant resp.At(Messages(lines[..i]), recs)
      invariant sessionId == LearnId(pinned, lines[..i], extract)
    {
      var line := lines[i];
      ghost var before := Messages(lines[..i]);
      OneMoreLine(lines, i, pinned, extract);
      OneLineOnly(line, sessionId, extract);
      assert before + [] == before;
      if line == "" {
        continue;
      }
      if sessionId == "" {
        var id := extract(line);
        if id != "" {
          sessionId := id;
        }
      }
      var e := Event("message", line);
      complete := Send(resp, e, before, recs);
      if !complete {
        ghost var all, n := Messages(lines), |before| + 1;
        assert all[..n] == before + [e] && all[..n - 1] == before;
        if Carries(resp.room, resp.flushLimit, all) {
          CarriesPrefix(resp.room, resp.flushLimit, before + [e], all);
        }
        assert resp.BrokeAt(all, recs, n);
        return;
      }
    }
    assert lines[..|lines|] == lines;
    complete := true;
  }

  lemma ClipTwice(room: Option<nat>, before: seq<Event>, e: Event)
    ensures Clip(room, Clip(room, EncodeAll(before)) + Encode(e)) == Clip(room, EncodeAll(before + [e]))
    ensures Clip(room, Clip(room, EncodeAll(before))) == Clip(room, EncodeAll(before))
  {
    EncodeAllSnoc(before, e);
    ClipGrows(room, EncodeAll(before), Encode(e));
  }

  /** Send one frame, broken connection or not; the write error is ignored. */
  method SendAnyway(resp: Response, e: Event, ghost before: seq<Event>, ghost recs: Recs)
    requires resp.sent == Clip(resp.room, EncodeAll(before))
    modifies resp
    ensures resp.sent == Clip(resp.room, EncodeAll(before + [e]))
    ensures resp.journal == old(resp.journal) + [Attempt(e, recs)]
  {
    ClipTwice(resp.room, before, e);
    var _ := resp.WriteSse(e, recs);
  }

  lemma TailIs(before: seq<Event>, errorData: Option<string>, doneData: string, recs: Recs)
    ensures var done, tail := Event("done", doneData), Tail(errorData, doneData);
            if errorData.None? then before + tail == before + [done] && Attempts(tail, recs) == [Attempt(done, recs)]
            else
              var e := Event("error", errorData.value);
              && before + tail == before + [e] + [done]
              && Attempts(tail, recs) == [Attempt(e, recs)] + [Attempt(done, recs)]
  {
  }

  /** The frames after the messages. */
  method CloseOff(resp: Response, errorData: Option<string>, doneData: string,
                  ghost before: seq<Event>, ghost recs: Recs)
    requires resp.sent == Clip(resp.room, EncodeAll(before))
    modifies resp
    ensures resp.sent == Clip(resp.room, EncodeAll(before + Tail(errorData, doneData)))
    ensures resp.journal == old(resp.journal) + Attempts(Tail(errorData, doneData), recs)
  {
    var done := Event("done", doneData);
    ghost var sofar := before;
    if errorData.Some? {
      var e := Event("error", errorData.value);
      SendAnyway(resp, e, before, recs);
      sofar := before + [e];
    }
    SendAnyway(resp, done, sofar, recs);
    TailIs(before, errorData, doneData, recs);
  }

  /**
   `streamRun`: relay the lines, record the session, then an error event if the scan or the child
   failed, then the done event.
   */
  method StreamRun(resp: Response, store: Store, c: Child, pinned: string, workdir: string, model: string,
                   extract: Extract, now: int, fault: Fault)
    returns (complete: bool)
    requires resp.At([], store.recs)
    modifies resp, store
    ensures complete <==> Carries(resp.room, resp.flushLimit, Messages(ScannedLines(c)))
    ensures !complete ==> store.recs == old(store.recs) && store.file == old(store.file)
                          && resp.CutShort(Messages(ScannedLines(c)), old(store.recs))
    ensures complete ==>
              store.recs == Updated(old(store.recs), Touch(RunId(c, pinned, extract), workdir, model, "", now))
    ensures complete ==> resp.sent == Clip(resp.room, EncodeAll(AllFrames(c, pinned, extract)))
    ensures complete ==> resp.journal == Attempts(Messages(ScannedLines(c)), old(store.recs))
                                         + Attempts(Closing(Failure(c), RunId(c, pinned, extract)), store.recs)
  {
    var sessionId: string;
    complete, sessionId := RelayLines(resp, ScannedLines(c), pinned, extract, store.recs);
    if !complete {
      return;
    }
    if sessionId != "" {
      var _ := store.Upsert(Touch(sessionId, workdir, model, "", now), fault);
    }
    ClipGrows(resp.room, resp.sent, "");
    var failure := Failure(c);
    CloseOff(resp, if failure.Some? then Some(ErrorData(failure.value, sessionId)) else None, DoneData(sessionId),
             Messages(ScannedLines(c)), store.recs);
  }
}
