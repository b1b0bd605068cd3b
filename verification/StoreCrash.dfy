/**
 Upserts as interleaved steps. An Upsert takes its snapshot under the lock but writes it outside,
 through one shared ".tmp" path, so overlapping Upserts meet in the file system. Files are
 inodes: a process that opened the neighbour keeps writing to the same inode after another
 process has renamed it over the store file.
 */
module StoreCrash {
  import opened Text
  import opened Sessions

  type Pid = nat
  type Ino = nat

  /**
   What an inode holds. `Blank` is an empty file that nobody is writing, `Cut` one that its writer
   has just truncated. An incomplete one remembers its writer if only one has touched it.
   */
  datatype Bytes = Blank | Cut(writer: Pid) | Partial(writer: Pid) | Mixed | Image(recs: Recs)

  /** How far one Upsert has got. */
  datatype Phase = Snapped(snap: Recs) | Writing(snap: Recs, ino: Ino) | Written(snap: Recs)

  /**
   `past` holds every memory image since the daemon started, `durable` the image the last
   successful Upsert (or `Open`) left in the file; both only record, no step reads them.
   */
  datatype State = State(
    recs: Recs, flight: map<Pid, Phase>,
    inodes: map<Ino, Bytes>, file: Option<Ino>, tmp: Option<Ino>, nextIno: Ino,
    past: set<Recs>, durable: Recs)

  datatype Step =
    | Begin(pid: Pid, touch: Touch)  // lock, update, snapshot, unlock
    | WriteWhole(pid: Pid)           // the whole of os.WriteFile at once
    | Truncate(pid: Pid)             // os.WriteFile split: open and truncate,
    | WritePart(pid: Pid)            //   some of the bytes,
    | WriteRest(pid: Pid)            //   the last of them
    | WriteFails(pid: Pid)
    | Rename(pid: Pid)
    | RenameFails(pid: Pid)
    | Crash                          // the daemon dies and is started again

  // ----- the file as a reader sees it -----

  function Read(s: State, ino: Option<Ino>): Content {
    if ino.None? || ino.value !in s.inodes then Absent
    else match s.inodes[ino.value]
      case Blank => Empty
      case Cut(_) => Empty
      case Partial(_) => Torn
      case Mixed => Torn
      case Image(m) => Whole(m)
  }

  // ----- steps -----

  /** The inode that opening the neighbour for writing yields. */
  function Target(s: State): Ino {
    if s.tmp.Some? then s.tmp.value else s.nextIno
  }

  function OpenTmp(s: State, b: Bytes): State {
    s.(inodes := s.inodes[Target(s) := b], tmp := Some(Target(s)),
       nextIno := if s.tmp.Some? then s.nextIno else s.nextIno + 1)
  }

  predicate OwnedBy(b: Bytes, pid: Pid) {
    (b.Cut? || b.Partial?) && b.writer == pid
  }

  predicate Enabled(s: State, step: Step) {
    match step
    case Begin(pid, t) => pid !in s.flight && t.id != ""
    case WriteWhole(pid) => pid in s.flight && s.flight[pid].Snapped?
    case Truncate(pid) => pid in s.flight && s.flight[pid].Snapped?
    case WritePart(pid) => pid in s.flight && s.flight[pid].Writing? && s.flight[pid].ino in s.inodes
    case WriteRest(pid) => pid in s.flight && s.flight[pid].Writing? && s.flight[pid].ino in s.inodes
    case WriteFails(pid) => pid in s.flight && !s.flight[pid].Written?
    case Rename(pid) => pid in s.flight && s.flight[pid].Written? && s.tmp.Some?
    case RenameFails(pid) => pid in s.flight && s.flight[pid].Written?
    case Crash => Load(Read(s, s.file)).Some?
  }

  function Next(s: State, step: Step): State
    requires Enabled(s, step)
  {
    match step
    case Begin(pid, t) =>
      var m := Updated(s.recs, t);
      s.(recs := m, flight := s.flight[pid := Snapped(m)], past := s.past + {m})
    case WriteWhole(pid) =>
      var m := s.flight[pid].snap;
      OpenTmp(s, Image(m)).(flight := s.flight[pid := Written(m)])
    case Truncate(pid) =>
      OpenTmp(s, Cut(pid)).(flight := s.flight[pid := Writing(s.flight[pid].snap, Target(s))])
    case WritePart(pid) =>
      var ino := s.flight[pid].ino;
      s.(inodes := s.inodes[ino := if OwnedBy(s.inodes[ino], pid) then Partial(pid) else Mixed])
    case WriteRest(pid) =>
      var ino, m := s.flight[pid].ino, s.flight[pid].snap;
      s.(inodes := s.inodes[ino := if OwnedBy(s.inodes[ino], pid) then Image(m) else Mixed],
         flight := s.flight[pid := Written(m)])
    case WriteFails(pid) => s.(flight := s.flight - {pid})
    case Rename(pid) =>
      s.(file := s.tmp, tmp := None, flight := s.flight - {pid}, durable := s.flight[pid].snap)
    case RenameFails(pid) => s.(flight := s.flight - {pid})
    case Crash =>
      var m := Load(Read(s, s.file)).value;
      s.(recs := m, flight := map[], past := {m}, durable := m,
         inodes := if Read(s, s.file).Empty? then s.inodes[s.file.value := Blank] else s.inodes)
  }

  predicate ValidRun(s: State, steps: seq<Step>)
    decreases |steps|
  {
    steps == [] || (Enabled(s, steps[0]) && ValidRun(Next(s, steps[0]), steps[1..]))
  }

  function Final(s: State, steps: seq<Step>): State
    requires ValidRun(s, steps)
    decreases |steps|
  {
    if steps == [] then s else Final(Next(s, steps[0]), steps[1..])
  }

  // ----- a daemon that has just started -----

  /** An absent file has no inode; its bytes do not matter. */
  function BytesOf(c: Content): Bytes {
    match c
    case Absent => Blank
    case Empty => Blank
    case Torn => Mixed
    case Whole(m) => Image(m)
  }

  /** `Open` on a store file, beside whatever an earlier daemon left in the neighbour. */
  function Opened(file: Content, tmp: Content): State
    requires Load(file).Some?
  {
    var m := Load(file).value;
    State(m, map[], map[0 := BytesOf(file), 1 := BytesOf(tmp)],
          if file.Absent? then None else Some(0), if tmp.Absent? then None else Some(1), 2, {m}, m)
  }

  // ----- when the file stays intact -----

  function BytesAt(s: State, ino: Option<Ino>): Option<Bytes> {
    if ino.None? || ino.value !in s.inodes then None else Some(s.inodes[ino.value])
  }

  /** The file loads to an image that the memory really had: absent or blank, or written out whole. */
  ghost predicate Intact(s: State) {
    var b := BytesAt(s, s.file);
    if b.None? || b.value.Blank? then map[] in s.past else b.value.Image? && b.value.recs in s.past
  }

  /** The two ways to spoil the file: rename an incomplete neighbour, or write on after the rename. */
  predicate Damaging(s: State, step: Step) {
    match step
    case Rename(pid) => !Read(s, s.tmp).Whole?
    case WritePart(pid) => pid in s.flight && s.flight[pid].Writing? && s.file == Some(s.flight[pid].ino)
    case WriteRest(pid) => pid in s.flight && s.flight[pid].Writing? && s.file == Some(s.flight[pid].ino)
    case _ => false
  }

  predicate InProgress(s: State, pid: Pid) {
    pid in s.flight && !s.flight[pid].Snapped?
  }

  ghost predicate InodesOk(s: State) {
    && (s.file.Some? ==> s.file.value in s.inodes && s.file.value < s.nextIno)
    && (s.tmp.Some? ==> s.tmp.value in s.inodes && s.tmp.value < s.nextIno)
    && (s.file.Some? && s.tmp.Some? ==> s.file != s.tmp)
    && forall pid :: pid in s.flight && s.flight[pid].Writing? ==>
                       s.flight[pid].ino in s.inodes && s.flight[pid].ino < s.nextIno
  }

  ghost predicate PastOk(s: State) {
    && s.recs in s.past
    && (forall m :: m in s.past ==> Behind(m, s.recs))
    && (forall pid :: pid in s.flight ==> s.flight[pid].snap in s.past)
  }

  /** A neighbour left over from before a start matters only once somebody has opened it again. */
  ghost predicate TmpOk(s: State) {
    forall pid :: InProgress(s, pid) ==> TmpUsable(s)
  }

  ghost predicate TmpUsable(s: State) {
    var b := BytesAt(s, s.tmp);
    b.Some? ==> !b.value.Blank? && (b.value.Image? ==> b.value.recs in s.past)
  }

  ghost predicate Inv(s: State) {
    InodesOk(s) && PastOk(s) && TmpOk(s) && Intact(s)
  }

  lemma BeginKeepsPast(s: State, step: Step)
    requires PastOk(s) && step.Begin? && Enabled(s, step)
    ensures PastOk(Next(s, step))
  {
    var m := Updated(s.recs, step.touch);
    forall p | p in s.past + {m}
      ensures Behind(p, m)
    {
      if p != m {
        assert Behind(p, s.recs);
      }
    }
  }

  lemma StepKeepsInodes(s: State, step: Step)
    requires InodesOk(s) && Enabled(s, step)
    ensures InodesOk(Next(s, step))
  {
  }

  lemma StepKeepsPast(s: State, step: Step)
    requires PastOk(s) && Intact(s) && Enabled(s, step)
    ensures PastOk(Next(s, step))
  {
    if step.Begin? {
      BeginKeepsPast(s, step);
    }
  }

  lemma StepKeepsTmp(s: State, step: Step)
    requires Inv(s) && Enabled(s, step)
    ensures TmpOk(Next(s, step))
  {
    var s' := Next(s, step);
    forall pid | InProgress(s', pid)
      ensures TmpUsable(s')
    {
      assert InProgress(s, pid) || step.WriteWhole? || step.Truncate?;
    }
  }

  lemma CrashStaysIntact(s: State)
    requires Inv(s) && Enabled(s, Crash)
    ensures Intact(Next(s, Crash))
  {
  }

  /** From a good state, a step leaves the file intact exactly when it is not damaging. */
  lemma StepIntact(s: State, step: Step)
    requires Inv(s) && Enabled(s, step)
    ensures Intact(Next(s, step)) <==> !Damaging(s, step)
  {
    var s' := Next(s, step);
    if step.Rename? {
      assert InProgress(s, step.pid);
    } else if step.Crash? {
      CrashStaysIntact(s);
    }
  }

  ghost predicate AlwaysIntact(s: State, steps: seq<Step>)
    requires ValidRun(s, steps)
    decreases |steps|
  {
    Intact(s) && (steps != [] ==> AlwaysIntact(Next(s, steps[0]), steps[1..]))
  }

  predicate NeverDamaging(s: State, steps: seq<Step>)
    requires ValidRun(s, steps)
    decreases |steps|
  {
    steps != [] ==> !Damaging(s, steps[0]) && NeverDamaging(Next(s, steps[0]), steps[1..])
  }

  lemma {:induction false} IntactRun(s: State, steps: seq<Step>)
    requires Inv(s) && ValidRun(s, steps)
    ensures AlwaysIntact(s, steps) <==> NeverDamaging(s, steps)
    ensures NeverDamaging(s, steps) ==> Inv(Final(s, steps))
    decreases |steps|
  {
    if steps == [] {
    } else {
      StepIntact(s, steps[0]);
      if !Damaging(s, steps[0]) {
        StepKeepsInodes(s, steps[0]);
        StepKeepsPast(s, steps[0]);
        StepKeepsTmp(s, steps[0]);
        IntactRun(Next(s, steps[0]), steps[1..]);
      }
    }
  }

  lemma OpenedInodes(file: Content, tmp: Content)
    requires Load(file).Some?
    ensures var s := Opened(file, tmp);
            InodesOk(s) && Read(s, s.file) == file && Read(s, s.tmp) == tmp && (tmp.Absent? ==> s.tmp == None)
    ensures var s := Opened(file, tmp);
            BytesAt(s, s.file) == if file.Absent? then None else Some(BytesOf(file))
  {
  }

  /** Nobody under way, one image so far, and the file loads to it. */
  ghost predicate JustStarted(s: State) {
    && InodesOk(s)
    && s.flight == map[] && s.past == {s.recs} && s.durable == s.recs
    && Load(Read(s, s.file)) == Some(s.recs)
    && var b := BytesAt(s, s.file); b.None? || b.value.Blank? || b.value.Image?
  }

  lemma StartIsGood(s: State)
    requires JustStarted(s)
    ensures Inv(s) && NobodyWriting(s) && SerialInv(s)
  {
    assert Behind(s.recs, s.recs);
  }

  lemma OpenedStarts(file: Content, tmp: Content)
    requires Load(file).Some?
    ensures JustStarted(Opened(file, tmp))
  {
    OpenedInodes(file, tmp);
  }

  lemma OpenedOk(file: Content, tmp: Content)
    requires Load(file).Some?
    ensures var s := Opened(file, tmp);
            Inv(s) && NobodyWriting(s) && SerialInv(s) && (tmp.Absent? ==> Quiet(s))
  {
    OpenedInodes(file, tmp);
    OpenedStarts(file, tmp);
    StartIsGood(Opened(file, tmp));
  }

  /**
   Over any run of a daemon, with any overlap, any failure and any crash: the file stays intact
   throughout if and only if no step renames an incomplete neighbour or writes to the renamed inode.
   */
  lemma IntactIffNeverDamaging(file: Content, tmp: Content, steps: seq<Step>)
    requires Load(file).Some? && ValidRun(Opened(file, tmp), steps)
    ensures AlwaysIntact(Opened(file, tmp), steps) <==> NeverDamaging(Opened(file, tmp), steps)
  {
    OpenedOk(file, tmp);
    IntactRun(Opened(file, tmp), steps);
  }

  // ----- restarts -----

  lemma {:induction false} RunKeepsInodes(s: State, steps: seq<Step>)
    requires InodesOk(s) && ValidRun(s, steps)
    ensures InodesOk(Final(s, steps))
    decreases |steps|
  {
    if steps == [] {
    } else {
      StepKeepsInodes(s, steps[0]);
      RunKeepsInodes(Next(s, steps[0]), steps[1..]);
    }
  }

  lemma RestartStarts(s: State)
    requires InodesOk(s) && Enabled(s, Crash)
    ensures JustStarted(Next(s, Crash))
  {
    StepKeepsInodes(s, Crash);
  }

  /** Whatever happened before, damage included: a restart that succeeds is a good state again. */
  lemma RestartIsGood(file: Content, tmp: Content, steps: seq<Step>)
    requires Load(file).Some? && ValidRun(Opened(file, tmp), steps)
    requires Enabled(Final(Opened(file, tmp), steps), Crash)
    ensures var e := Next(Final(Opened(file, tmp), steps), Crash);
            Inv(e) && NobodyWriting(e) && SerialInv(e)
  {
    OpenedInodes(file, tmp);
    RunKeepsInodes(Opened(file, tmp), steps);
    RestartStarts(Final(Opened(file, tmp), steps));
    StartIsGood(Next(Final(Opened(file, tmp), steps), Crash));
  }

  // ----- overlapping Upserts whose file writes are not split -----

  ghost predicate WholeWrites(steps: seq<Step>) {
    forall i :: 0 <= i < |steps| ==> !steps[i].Truncate?
  }

  ghost predicate NobodyWriting(s: State) {
    && (forall pid :: pid in s.flight ==> !s.flight[pid].Writing?)
    && (forall pid :: InProgress(s, pid) && s.tmp.Some? ==> Read(s, s.tmp).Whole?)
  }

  lemma WholeStep(s: State, step: Step)
    requires Inv(s) && NobodyWriting(s) && Enabled(s, step) && !step.Truncate?
    ensures !Damaging(s, step) && NobodyWriting(Next(s, step))
  {
    var s' := Next(s, step);
    if step.Rename? {
      assert InProgress(s, step.pid);
    }
    forall pid | InProgress(s', pid) && s'.tmp.Some?
      ensures Read(s', s'.tmp).Whole?
    {
      assert InProgress(s, pid) || step.WriteWhole?;
    }
  }

  lemma {:induction false} WholeRun(s: State, steps: seq<Step>)
    requires Inv(s) && NobodyWriting(s) && ValidRun(s, steps) && WholeWrites(steps)
    ensures NeverDamaging(s, steps)
    decreases |steps|
  {
    if steps == [] {
    } else {
      WholeStep(s, steps[0]);
      StepIntact(s, steps[0]);
      StepKeepsInodes(s, steps[0]);
      StepKeepsPast(s, steps[0]);
      StepKeepsTmp(s, steps[0]);
      WholeRun(Next(s, steps[0]), steps[1..]);
    }
  }

  lemma IntactTrails(s: State)
    requires Inv(s)
    ensures var m := Load(Read(s, s.file)); m.Some? && m.value in s.past && Behind(m.value, s.recs)
  {
  }

  /** No record is from after `t`. */
  ghost predicate WellTimed(recs: Recs, t: int) {
    forall id :: id in recs ==> recs[id].lastUsed <= t
  }

  /** The clock reads `t` at first and never goes back from one Upsert to the next. */
  predicate ClockHolds(steps: seq<Step>, t: int) {
    steps == [] ||
    (&& (steps[0].Begin? ==> t <= steps[0].touch.now)
     && ClockHolds(steps[1..], if steps[0].Begin? then steps[0].touch.now else t))
  }

  ghost predicate UsesOk(s: State, t: int) {
    WellTimed(s.recs, t) && forall m :: m in s.past ==> UsedNoLater(m, s.recs)
  }

  lemma UsesStep(s: State, step: Step, t: int)
    requires Inv(s) && UsesOk(s, t) && Enabled(s, step)
    requires step.Begin? ==> t <= step.touch.now
    ensures UsesOk(Next(s, step), if step.Begin? then step.touch.now else t)
  {
    if step.Begin? {
      var m := Updated(s.recs, step.touch);
      forall p | p in s.past + {m}
        ensures UsedNoLater(p, m)
      {
        if p != m {
          assert UsedNoLater(p, s.recs);
        }
      }
    } else if step.Crash? {
      IntactTrails(s);
    }
  }

  lemma {:induction false} UsesRun(s: State, steps: seq<Step>, t: int) returns (u: int)
    requires Inv(s) && UsesOk(s, t) && ValidRun(s, steps) && NeverDamaging(s, steps) && ClockHolds(steps, t)
    ensures UsesOk(Final(s, steps), u)
    decreases |steps|
  {
    if steps == [] {
      u := t;
    } else {
      StepIntact(s, steps[0]);
      StepKeepsInodes(s, steps[0]);
      StepKeepsPast(s, steps[0]);
      StepKeepsTmp(s, steps[0]);
      UsesStep(s, steps[0], t);
      u := UsesRun(Next(s, steps[0]), steps[1..], if steps[0].Begin? then steps[0].touch.now else t);
    }
  }

  /**
   In every interleaving of overlapping Upserts the file loads to an image the memory really had,
   with no extra keys and the same births. If the clock never goes back, and the opened file was
   not ahead of it, no session was used later in the file than in memory.
   */
  lemma FileTrailsMemory(file: Content, tmp: Content, steps: seq<Step>)
    requires Load(file).Some? && ValidRun(Opened(file, tmp), steps) && WholeWrites(steps)
    ensures var e := Final(Opened(file, tmp), steps);
            var m := Load(Read(e, e.file));
            && m.Some? && m.value in e.past && Behind(m.value, e.recs)
            && forall t :: WellTimed(Load(file).value, t) && ClockHolds(steps, t) ==> UsedNoLater(m.value, e.recs)
  {
    var s := Opened(file, tmp);
    OpenedOk(file, tmp);
    WholeRun(s, steps);
    IntactRun(s, steps);
    IntactTrails(Final(s, steps));
    forall t | WellTimed(Load(file).value, t) && ClockHolds(steps, t)
      ensures UsedNoLater(Load(Read(Final(s, steps), Final(s, steps).file)).value, Final(s, steps).recs)
    {
      var _ := UsesRun(s, steps, t);
    }
  }

  // ----- Upserts that do not overlap, file writes split anywhere, crashes anywhere -----

  predicate SerialRun(s: State, steps: seq<Step>)
    requires ValidRun(s, steps)
    decreases |steps|
  {
    steps != [] ==> (steps[0].Begin? ==> s.flight == map[]) && SerialRun(Next(s, steps[0]), steps[1..])
  }

  ghost predicate SerialPhase(s: State, pid: Pid)
    requires pid in s.flight
  {
    s.flight[pid].snap == s.recs &&
    match s.flight[pid]
    case Snapped(_) => true
    case Writing(_, ino) => s.tmp == Some(ino) && ino in s.inodes && OwnedBy(s.inodes[ino], pid)
    case Written(m) => s.tmp.Some? && Read(s, s.tmp) == Whole(m)
  }

  ghost predicate SerialInv(s: State) {
    && InodesOk(s)
    && Load(Read(s, s.file)) == Some(s.durable)
    && (forall p, q :: p in s.flight && q in s.flight ==> p == q)
    && forall pid :: pid in s.flight ==> SerialPhase(s, pid)
  }

  lemma SerialStep(s: State, step: Step)
    requires SerialInv(s) && Enabled(s, step)
    requires step.Begin? ==> s.flight == map[]
    ensures SerialInv(Next(s, step))
  {
    StepKeepsInodes(s, step);
    var s' := Next(s, step);
    forall pid | pid in s'.flight
      ensures SerialPhase(s', pid)
    {
      assert !step.Begin? ==> pid in s.flight && SerialPhase(s, pid);
    }
  }

  lemma {:induction false} SerialRunKeeps(s: State, steps: seq<Step>)
    requires SerialInv(s) && ValidRun(s, steps) && SerialRun(s, steps)
    ensures SerialInv(Final(s, steps))
    decreases |steps|
  {
    if steps == [] {
    } else {
      SerialStep(s, steps[0]);
      SerialRunKeeps(Next(s, steps[0]), steps[1..]);
    }
  }

  /** A run of a daemon in which no Upsert begins before the one before it has ended. */
  ghost predicate SerialDaemon(file: Content, tmp: Content, steps: seq<Step>) {
    Load(file).Some? && ValidRun(Opened(file, tmp), steps) && SerialRun(Opened(file, tmp), steps)
  }

  /** A reader, or a restart, always finds the image of the last successful Upsert: never a torn one. */
  lemma SerialRunIsDurable(file: Content, tmp: Content, steps: seq<Step>)
    requires SerialDaemon(file, tmp, steps)
    ensures var e := Final(Opened(file, tmp), steps);
            SerialInv(e) && Load(Read(e, e.file)) == Some(e.durable) && Enabled(e, Crash)
  {
    OpenedOk(file, tmp);
    SerialRunKeeps(Opened(file, tmp), steps);
  }

  /** A successful Upsert leaves the file equal to memory, also after earlier ones failed. */
  lemma SuccessMeansFileEqualsMemory(file: Content, tmp: Content, steps: seq<Step>, pid: Pid)
    requires SerialDaemon(file, tmp, steps)
    requires Enabled(Final(Opened(file, tmp), steps), Rename(pid))
    ensures var e := Next(Final(Opened(file, tmp), steps), Rename(pid));
            e.flight == map[] && Load(Read(e, e.file)) == Some(e.recs)
  {
    SerialRunIsDurable(file, tmp, steps);
    var s := Final(Opened(file, tmp), steps);
    assert SerialPhase(s, pid);
    SerialStep(s, Rename(pid));
  }

  ghost predicate OneUpsert(steps: seq<Step>) {
    forall i :: 0 <= i < |steps| ==> !steps[i].Begin? && !steps[i].Crash?
  }

  lemma {:induction false} DurableIsOldOrNew(s: State, pre: Recs, steps: seq<Step>)
    requires SerialInv(s) && ValidRun(s, steps) && OneUpsert(steps)
    requires s.durable == pre || s.durable == s.recs
    ensures SerialInv(Final(s, steps)) && Final(s, steps).recs == s.recs
    ensures Final(s, steps).durable == pre || Final(s, steps).durable == s.recs
    decreases |steps|
  {
    if steps == [] {
    } else {
      assert steps[0].Rename? ==> SerialPhase(s, steps[0].pid);
      SerialStep(s, steps[0]);
      DurableIsOldOrNew(Next(s, steps[0]), pre, steps[1..]);
    }
  }

  /**
   Wherever an Upsert is cut short, a restart finds the map of the last success before it or the
   map from after it; the former is the memory before it unless an earlier Upsert failed.
   */
  lemma CrashReadsBeforeOrAfter(
      file: Content, tmp: Content, before: seq<Step>, pid: Pid, t: Touch, steps: seq<Step>)
    requires SerialDaemon(file, tmp, before)
    requires var s := Final(Opened(file, tmp), before);
             s.flight == map[] && Enabled(s, Begin(pid, t)) && ValidRun(Next(s, Begin(pid, t)), steps)
    requires OneUpsert(steps)
    ensures var s := Final(Opened(file, tmp), before);
            var e := Final(Next(s, Begin(pid, t)), steps);
            Enabled(e, Crash) && Next(e, Crash).recs in {s.durable, Updated(s.recs, t)}
  {
    SerialRunIsDurable(file, tmp, before);
    var s := Final(Opened(file, tmp), before);
    SerialStep(s, Begin(pid, t));
    DurableIsOldOrNew(Next(s, Begin(pid, t)), s.durable, steps);
  }

  // ----- what overlapping Upserts can do -----

  lemma RunCons(s: State, step: Step, rest: seq<Step>)
    requires Enabled(s, step) && ValidRun(Next(s, step), rest)
    ensures ValidRun(s, [step] + rest) && Final(s, [step] + rest) == Final(Next(s, step), rest)
  {
    assert ([step] + rest)[1..] == rest;
  }

  ghost predicate Quiet(s: State) {
    Inv(s) && s.flight == map[] && s.tmp == None
  }

  /** An Upsert's write and rename with nothing in between. */
  function Published(s: State, pid: Pid): (e: State)
    requires Enabled(s, WriteWhole(pid))
    ensures Read(e, e.file) == Whole(s.flight[pid].snap) && e.tmp == None
    ensures e.recs == s.recs && e.flight == s.flight - {pid}
  {
    Next(Next(s, WriteWhole(pid)), Rename(pid))
  }

  lemma Publish(s: State, pid: Pid, rest: seq<Step>) returns (steps: seq<Step>)
    requires Enabled(s, WriteWhole(pid)) && ValidRun(Published(s, pid), rest) && WholeWrites(rest)
    ensures ValidRun(s, steps) && WholeWrites(steps) && Final(s, steps) == Final(Published(s, pid), rest)
  {
    var s1 := Next(s, WriteWhole(pid));
    RunCons(s1, Rename(pid), rest);
    RunCons(s, WriteWhole(pid), [Rename(pid)] + rest);
    steps := [WriteWhole(pid)] + ([Rename(pid)] + rest);
  }

  /** Two Upserts with their snapshots taken publish in the other order. */
  lemma PublishInOtherOrder(s: State) returns (steps: seq<Step>)
    requires s.tmp == None && s.flight.Keys == {1, 2} && s.flight[1].Snapped? && s.flight[2].Snapped?
    ensures ValidRun(s, steps) && WholeWrites(steps)
    ensures var e := Final(s, steps);
            e.flight == map[] && e.recs == s.recs && Read(e, e.file) == Whole(s.flight[1].snap)
  {
    var s1 := Published(s, 2);
    assert s1.flight.Keys == {1};
    var e := Published(s1, 1);
    assert e.flight.Keys == {};
    steps := Publish(s1, 1, []);
    steps := Publish(s, 2, steps);
  }

  /**
   Two overlapping Upserts, each write whole and each successful, can leave the file without the
   session that the later one recorded: the renames may come in the other order.
   */
  lemma OverlapLeavesFileStale(s: State, a: Touch, b: Touch) returns (steps: seq<Step>)
    requires Quiet(s) && a.id != "" && b.id != "" && a.id != b.id && b.id !in s.recs
    ensures ValidRun(s, steps) && WholeWrites(steps)
    ensures var e := Final(s, steps);
            e.flight == map[] && b.id in e.recs && Read(e, e.file) == Whole(Updated(s.recs, a))
    ensures b.id !in Updated(s.recs, a)
  {
    var s1 := Next(s, Begin(1, a));
    var s2 := Next(s1, Begin(2, b));
    steps := PublishInOtherOrder(s2);
    RunCons(s1, Begin(2, b), steps);
    steps := [Begin(2, b)] + steps;
    RunCons(s, Begin(1, a), steps);
    steps := [Begin(1, a)] + steps;
  }

  /**
   If a second Upsert has just truncated the shared neighbour when the first renames it, a crash
   at that moment restarts with an empty store: every session is forgotten, and `Open` succeeds.
   */
  lemma OverlapCanLoseEverything(s: State, a: Touch, b: Touch) returns (steps: seq<Step>)
    requires Quiet(s) && a.id != "" && b.id != ""
    ensures ValidRun(s, steps) && Final(s, steps).recs == map[]
  {
    var s1 := Next(s, Begin(1, a));
    var s2 := Next(s1, WriteWhole(1));
    var s3 := Next(s2, Begin(2, b));
    var s4 := Next(s3, Truncate(2));
    var s5 := Next(s4, Rename(1));
    assert Read(s5, s5.file) == Empty;
    steps := [];
    RunCons(s5, Crash, steps);
    steps := [Crash] + steps;
    RunCons(s4, Rename(1), steps);
    steps := [Rename(1)] + steps;
    RunCons(s3, Truncate(2), steps);
    steps := [Truncate(2)] + steps;
    RunCons(s2, Begin(2, b), steps);
    steps := [Begin(2, b)] + steps;
    RunCons(s1, WriteWhole(1), steps);
    steps := [WriteWhole(1)] + steps;
    RunCons(s, Begin(1, a), steps);
    steps := [Begin(1, a)] + steps;
  }
}
