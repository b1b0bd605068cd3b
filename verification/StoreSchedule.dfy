/**
 Which Upsert's image the store file holds, read off the schedule of overlapping Upserts alone.
 Upserts are numbered by their turn at the lock; 0 stands for the map the daemon opened with.
 */
module StoreSchedule {
  import opened Text
  import opened Sessions
  import opened StoreCrash

  /** How many have had their turn, whose turn each running one had, who wrote the neighbour, who the file. */
  datatype Schedule = Schedule(count: nat, turn: map<Pid, nat>, tmp: Option<nat>, file: nat)

  const START := Schedule(0, map[], None, 0)

  /** Follows the steps by their names only: no map, no clock, no file content is looked at. */
  function Follow(c: Schedule, step: Step): Schedule {
    match step
    case Begin(pid, _) => c.(count := c.count + 1, turn := c.turn[pid := c.count + 1])
    case WriteWhole(pid) => if pid in c.turn then c.(tmp := Some(c.turn[pid])) else c
    case Rename(pid) => c.(file := c.tmp.GetOr(c.file), tmp := None, turn := c.turn - {pid})
    case WriteFails(pid) => c.(turn := c.turn - {pid})
    case RenameFails(pid) => c.(turn := c.turn - {pid})
    case Crash => START
    case _ => c
  }

  function FollowAll(c: Schedule, steps: seq<Step>): Schedule
    decreases |steps|
  {
    if steps == [] then c else FollowAll(Follow(c, steps[0]), steps[1..])
  }

  // ----- the schedule tells the images -----

  /** The memory images by turn, since the daemon was last started. */
  ghost function NextImages(images: seq<Recs>, s: State, step: Step): seq<Recs>
    requires Enabled(s, step)
  {
    match step
    case Begin(_, t) => images + [Updated(s.recs, t)]
    case Crash => [Next(s, step).recs]
    case _ => images
  }

  ghost predicate FlightTracked(s: State, c: Schedule, images: seq<Recs>) {
    forall pid :: pid in s.flight ==>
                    pid in c.turn && c.turn[pid] < |images| && s.flight[pid].snap == images[c.turn[pid]]
  }

  ghost predicate TmpTracked(s: State, c: Schedule, images: seq<Recs>) {
    && (c.tmp.Some? ==> c.tmp.value < |images| && s.tmp.Some? && Read(s, s.tmp) == Whole(images[c.tmp.value]))
    && forall pid :: InProgress(s, pid) && s.tmp.Some? ==> c.tmp.Some?
  }

  ghost predicate Tracks(s: State, c: Schedule, images: seq<Recs>) {
    && InodesOk(s) && NobodyWriting(s)
    && |images| == c.count + 1 && s.recs == images[c.count]
    && c.file < |images| && Load(Read(s, s.file)) == Some(images[c.file])
    && FlightTracked(s, c, images) && TmpTracked(s, c, images)
  }

  lemma TracksStep(s: State, c: Schedule, images: seq<Recs>, step: Step)
    requires Tracks(s, c, images) && Enabled(s, step) && !step.Truncate?
    ensures Tracks(Next(s, step), Follow(c, step), NextImages(images, s, step))
  {
    StepKeepsInodes(s, step);
    if step.Rename? {
      assert InProgress(s, step.pid);
    }
    WholeKeeps(s, step);
    TmpStep(s, c, images, step);
  }

  lemma WholeKeeps(s: State, step: Step)
    requires NobodyWriting(s) && Enabled(s, step) && !step.Truncate?
    ensures NobodyWriting(Next(s, step))
  {
    var s' := Next(s, step);
    forall pid | InProgress(s', pid) && s'.tmp.Some?
      ensures Read(s', s'.tmp).Whole?
    {
      assert InProgress(s, pid) || step.WriteWhole?;
    }
  }

  lemma TmpStep(s: State, c: Schedule, images: seq<Recs>, step: Step)
    requires Tracks(s, c, images) && Enabled(s, step) && !step.Truncate?
    ensures TmpTracked(Next(s, step), Follow(c, step), NextImages(images, s, step))
  {
    var s' := Next(s, step);
    forall pid | InProgress(s', pid) && s'.tmp.Some?
      ensures Follow(c, step).tmp.Some?
    {
      assert InProgress(s, pid) || step.WriteWhole?;
    }
  }

  // ----- images differ when the clock moves -----

  ghost predicate Told(images: seq<Recs>, t: int) {
    && (forall i :: 0 <= i < |images| ==> WellTimed(images[i], t))
    && (forall i, j :: 0 <= i < j < |images| ==> images[i] != images[j])
  }

  /** The clock reads `t` at first, and every Upsert reads a later one than the Upsert before it. */
  predicate ClockMoves(steps: seq<Step>, t: int) {
    steps == [] ||
    (&& (steps[0].Begin? ==> t < steps[0].touch.now)
     && ClockMoves(steps[1..], if steps[0].Begin? then steps[0].touch.now else t))
  }

  lemma ToldStep(s: State, c: Schedule, images: seq<Recs>, step: Step, t: int)
    requires Tracks(s, c, images) && Told(images, t) && Enabled(s, step)
    requires step.Begin? ==> t < step.touch.now
    ensures Told(NextImages(images, s, step), if step.Begin? then step.touch.now else t)
  {
    if step.Begin? {
      var touch := step.touch;
      var m := Updated(s.recs, touch);
      assert m[touch.id].lastUsed == touch.now;
      forall i | 0 <= i < |images|
        ensures images[i] != m
      {
        assert WellTimed(images[i], t);
      }
    }
  }

  lemma {:induction false} TracksRun(s: State, c: Schedule, images: seq<Recs>, steps: seq<Step>, t: int)
    returns (after: seq<Recs>, u: int)
    requires Tracks(s, c, images) && ValidRun(s, steps) && WholeWrites(steps)
    ensures Tracks(Final(s, steps), FollowAll(c, steps), after)
    ensures Told(images, t) && ClockMoves(steps, t) ==> Told(after, u)
    decreases |steps|
  {
    after, u := images, t;
    if steps == [] {
    } else {
      TracksStep(s, c, images, steps[0]);
      if Told(images, t) && ClockMoves(steps, t) {
        ToldStep(s, c, images, steps[0], t);
      }
      after, u := TracksRun(Next(s, steps[0]), Follow(c, steps[0]), NextImages(images, s, steps[0]), steps[1..],
                            if steps[0].Begin? then steps[0].touch.now else t);
    }
  }

  lemma StartTracks(s: State)
    requires JustStarted(s)
    ensures Tracks(s, START, [s.recs])
  {
  }

  lemma FreshAtTurn(s: State, c: Schedule, images: seq<Recs>)
    requires Tracks(s, c, images)
    ensures c.file == c.count ==> Load(Read(s, s.file)) == Some(s.recs)
    ensures forall t :: Told(images, t) ==> (Load(Read(s, s.file)) == Some(s.recs) <==> c.file == c.count)
  {
  }

  /**
   In every interleaving of overlapping Upserts with unsplit writes, failures and crashes included:
   if the file was last published by the Upsert that had the last turn, it equals memory. If the
   clock moves between turns, and the opened file was not ahead of it, it equals memory only then.
   */
  lemma FileIsFreshIff(file: Content, tmp: Content, steps: seq<Step>)
    requires Load(file).Some? && ValidRun(Opened(file, tmp), steps) && WholeWrites(steps)
    ensures var e, c := Final(Opened(file, tmp), steps), FollowAll(START, steps);
            && (c.file == c.count ==> Load(Read(e, e.file)) == Some(e.recs))
            && forall t :: WellTimed(Load(file).value, t) && ClockMoves(steps, t) ==>
                             (Load(Read(e, e.file)) == Some(e.recs) <==> c.file == c.count)
  {
    var s := Opened(file, tmp);
    OpenedStarts(file, tmp);
    StartTracks(s);
    var images, _ := TracksRun(s, START, [s.recs], steps, 0);
    FreshAtTurn(Final(s, steps), FollowAll(START, steps), images);
    forall t | WellTimed(Load(file).value, t) && ClockMoves(steps, t)
      ensures Load(Read(Final(s, steps), Final(s, steps).file)) == Some(Final(s, steps).recs) <==>
              FollowAll(START, steps).file == FollowAll(START, steps).count
    {
      var after, u := TracksRun(s, START, [s.recs], steps, t);
      assert Told([s.recs], t);
      FreshAtTurn(Final(s, steps), FollowAll(START, steps), after);
    }
  }
}
