/** Exactly which paths do not resolve: those that run into a wall, or into a loop of links. */
module LinkLoops {
  import opened Text
  import opened FileTree

  // ----- the walk, component by component -----

  /** Where a walk stands: the directory reached and the components still to follow. */
  datatype Spot = Spot(dest: Path, todo: seq<string>)

  predicate AtLink(fs: Fs, p: Spot) {
    p.todo != [] && p.todo[0] !in {"", ".", ".."} &&
    var e := Find(fs, p.dest + [p.todo[0]]); e.Some? && e.value.Link?
  }

  /** One component further, a link replaced by its target; `None` at the end or where the walk fails. */
  function Follow(fs: Fs, p: Spot): Option<Spot> {
    if p.todo == [] then None
    else
      var c, rest := p.todo[0], p.todo[1..];
      if c == "" || c == "." then Some(Spot(p.dest, rest))
      else if c == ".." then Some(Spot(Parent(p.dest), rest))
      else
        match Find(fs, p.dest + [c])
        case None => None
        case Some(Dir) => Some(Spot(p.dest + [c], rest))
        case Some(File) => if rest == [] then Some(Spot(p.dest + [c], [])) else None
        case Some(Link(t)) => Some(Spot(LinkBase(p.dest, t), Split(t, '/') + rest))
  }

  /** The walk gets from `p` to `q` in `k` components. */
  ghost predicate Leads(fs: Fs, p: Spot, q: Spot, k: nat)
    decreases k
  {
    if k == 0 then p == q else Follow(fs, p).Some? && Leads(fs, Follow(fs, p).value, q, k - 1)
  }

  /** One component of a successful walk: a link costs one unit of fuel, nothing else does. */
  lemma WalkFollows(fs: Fs, p: Spot, n: nat)
    requires Walk(fs, p.dest, p.todo, n).Some? && Follow(fs, p).Some?
    ensures AtLink(fs, p) ==> n > 0
    ensures var q := Follow(fs, p).value;
            Walk(fs, q.dest, q.todo, if AtLink(fs, p) then n - 1 else n) == Walk(fs, p.dest, p.todo, n)
  {
  }

  lemma {:induction false} WalkLeads(fs: Fs, p: Spot, q: Spot, k: nat, n: nat) returns (m: nat)
    requires Leads(fs, p, q, k) && Walk(fs, p.dest, p.todo, n).Some?
    ensures m <= n && Walk(fs, q.dest, q.todo, m).Some?
    ensures k > 0 && AtLink(fs, p) ==> m < n
    decreases k
  {
    m := n;
    if k == 0 {
    } else {
      WalkFollows(fs, p, n);
      m := WalkLeads(fs, Follow(fs, p).value, q, k - 1, if AtLink(fs, p) then n - 1 else n);
    }
  }

  lemma {:induction false} LeadsRealDirs(fs: Fs, p: Spot, q: Spot, k: nat)
    requires Leads(fs, p, q, k) && RealDirs(fs, p.dest) && q.todo != []
    ensures RealDirs(fs, q.dest)
    decreases k
  {
    if k == 0 {
    } else {
      ParentRealDirs(fs, p.dest);
      assert RealDirs(fs, []);
      var next, c := Follow(fs, p).value, p.todo[0];
      if IsDir(fs, p.dest + [c]) {
        ChildRealDirs(fs, p.dest, c);
      }
      if next.todo != [] {
        LeadsRealDirs(fs, next, q, k - 1);
      }
    }
  }

  /** A link whose expansion comes back to the same link, with anything still to do, never resolves. */
  lemma {:induction false} ReenteredLinkFails(fs: Fs, d: Path, c: string, more: seq<string>, k: nat, n: nat)
    requires RealDirs(fs, d) && AtLink(fs, Spot(d, [c])) && k > 0
    requires Leads(fs, Spot(d, [c]), Spot(d, [c] + more), k)
    ensures Walk(fs, d, [c], n) == None
    decreases n
  {
    if Walk(fs, d, [c], n).Some? {
      var m := WalkLeads(fs, Spot(d, [c]), Spot(d, [c] + more), k, n);
      WalkSplits(fs, d, [c], more, m);
      ReenteredLinkFails(fs, d, c, more, k, m);
    }
  }

  // ----- where a walk gets no further -----

  /** The expansion of the link leads back to it. */
  ghost predicate Loops(fs: Fs, d: Path, c: string) {
    exists more, k: nat :: k > 0 && Leads(fs, Spot(d, [c]), Spot(d, [c] + more), k)
  }

  /** A missing entry, a file with components left to follow, or a link that is re-entered. */
  ghost predicate Blocked(fs: Fs, q: Spot) {
    && q.todo != []
    && (Follow(fs, q).None? || (AtLink(fs, q) && Loops(fs, q.dest, q.todo[0])))
  }

  ghost predicate Fails(fs: Fs, p: Spot) {
    exists q, k: nat :: Leads(fs, p, q, k) && Blocked(fs, q)
  }

  ghost predicate Ends(fs: Fs, p: Spot) {
    exists n: nat :: Walk(fs, p.dest, p.todo, n).Some?
  }

  /** No number of links gets a walk past a blocked spot. */
  lemma BlockedNeverEnds(fs: Fs, q: Spot, n: nat)
    requires RealDirs(fs, q.dest) && Blocked(fs, q)
    ensures Walk(fs, q.dest, q.todo, n).None?
  {
    if Follow(fs, q).Some? && Walk(fs, q.dest, q.todo, n).Some? {
      var c := q.todo[0];
      var more, k: nat :| k > 0 && Leads(fs, Spot(q.dest, [c]), Spot(q.dest, [c] + more), k);
      assert q.todo == [c] + q.todo[1..];
      WalkSplits(fs, q.dest, [c], q.todo[1..], n);
      ReenteredLinkFails(fs, q.dest, c, more, k, n);
    }
  }

  lemma FailsNeverEnds(fs: Fs, p: Spot)
    requires RealDirs(fs, p.dest) && Fails(fs, p)
    ensures !Ends(fs, p)
  {
    var q, k: nat :| Leads(fs, p, q, k) && Blocked(fs, q);
    LeadsRealDirs(fs, p, q, k);
    if Ends(fs, p) {
      var n: nat :| Walk(fs, p.dest, p.todo, n).Some?;
      var m := WalkLeads(fs, p, q, k, n);
      BlockedNeverEnds(fs, q, m);
    }
  }

  // ----- a walk that is not blocked ends -----

  lemma {:induction false} LeadsOn(fs: Fs, p: Spot, q: Spot, r: Spot, j: nat, k: nat)
    requires Leads(fs, p, q, j) && Leads(fs, q, r, k)
    ensures Leads(fs, p, r, j + k)
    decreases j
  {
    if j == 0 {
    } else {
      LeadsOn(fs, Follow(fs, p).value, q, r, j - 1, k);
    }
  }

  lemma FailsFrom(fs: Fs, p: Spot, q: Spot, j: nat)
    requires Leads(fs, p, q, j) && Fails(fs, q)
    ensures Fails(fs, p)
  {
    var r, k: nat :| Leads(fs, q, r, k) && Blocked(fs, r);
    LeadsOn(fs, p, q, r, j, k);
  }

  predicate OntoFile(fs: Fs, p: Spot) {
    p.todo != [] && p.todo[0] !in {"", ".", ".."} && Find(fs, p.dest + [p.todo[0]]) == Some(File)
  }

  /** The same step with more to follow afterwards, unless it ends on a file. */
  lemma FollowMore(fs: Fs, p: Spot, more: seq<string>)
    requires Follow(fs, p).Some? && !OntoFile(fs, p)
    ensures var q := Follow(fs, p).value;
            Follow(fs, Spot(p.dest, p.todo + more)) == Some(Spot(q.dest, q.todo + more))
  {
    assert (p.todo + more)[1..] == p.todo[1..] + more;
    match Find(fs, p.dest + [p.todo[0]])
    case Some(Link(t)) => Assoc(Split(t, '/'), p.todo[1..], more);
    case _ =>
  }

  lemma {:induction false} LeadsMore(fs: Fs, p: Spot, q: Spot, k: nat, more: seq<string>)
    requires Leads(fs, p, q, k) && q.todo != []
    ensures Leads(fs, Spot(p.dest, p.todo + more), Spot(q.dest, q.todo + more), k)
    decreases k
  {
    if k == 0 {
    } else {
      var next := Follow(fs, p).value;
      LeadsMore(fs, next, q, k - 1, more);
      assert next.todo == [] ==> k == 1;
      FollowMore(fs, p, more);
    }
  }

  lemma BlockedMore(fs: Fs, q: Spot, more: seq<string>)
    requires Blocked(fs, q)
    ensures Blocked(fs, Spot(q.dest, q.todo + more))
  {
    assert (q.todo + more)[0] == q.todo[0];
  }

  lemma FailsMore(fs: Fs, p: Spot, more: seq<string>)
    requires Fails(fs, p)
    ensures Fails(fs, Spot(p.dest, p.todo + more))
  {
    var q, k: nat :| Leads(fs, p, q, k) && Blocked(fs, q);
    LeadsMore(fs, p, q, k, more);
    BlockedMore(fs, q, more);
  }

  lemma FileArrives(fs: Fs, p: Spot, b: seq<string>, n: nat)
    requires Walk(fs, p.dest, p.todo, n).Some? && OntoFile(fs, p)
    ensures var m, start := Walk(fs, p.dest, p.todo, n).value, Spot(p.dest, p.todo + b);
            if CanGoOn(fs, m, b) then Leads(fs, start, Spot(m, b), 1) else Fails(fs, start)
  {
    var start := Spot(p.dest, p.todo + b);
    assert start.todo[1..] == p.todo[1..] + b == b;
    if b != [] {
      assert Leads(fs, start, start, 0) && Blocked(fs, start);
    }
  }

  lemma NextRealDirs(fs: Fs, p: Spot)
    requires RealDirs(fs, p.dest) && Follow(fs, p).Some? && !OntoFile(fs, p)
    ensures RealDirs(fs, Follow(fs, p).value.dest)
  {
    ParentRealDirs(fs, p.dest);
    assert RealDirs(fs, []);
    var c := p.todo[0];
    if IsDir(fs, p.dest + [c]) {
      ChildRealDirs(fs, p.dest, c);
    }
  }

  /** A walk of `a` that ends is a way through `a + b`, or runs into a file before `b`. */
  lemma {:induction false} WalkArrives(fs: Fs, p: Spot, b: seq<string>, n: nat) returns (k: nat)
    requires RealDirs(fs, p.dest) && Walk(fs, p.dest, p.todo, n).Some?
    ensures var m := Walk(fs, p.dest, p.todo, n).value;
            if CanGoOn(fs, m, b) then Leads(fs, Spot(p.dest, p.todo + b), Spot(m, b), k)
            else Fails(fs, Spot(p.dest, p.todo + b))
    decreases n, |p.todo|
  {
    var start := Spot(p.dest, p.todo + b);
    k := 0;
    if p.todo == [] {
      assert p.todo + b == b;
      ParentRealDirs(fs, p.dest);
    } else {
      WalkFollows(fs, p, n);
      var next := Follow(fs, p).value;
      if OntoFile(fs, p) {
        FileArrives(fs, p, b, n);
        k := 1;
      } else {
        FollowMore(fs, p, b);
        NextRealDirs(fs, p);
        k := WalkArrives(fs, next, b, if AtLink(fs, p) then n - 1 else n);
        if Fails(fs, Spot(next.dest, next.todo + b)) {
          assert Leads(fs, start, Spot(next.dest, next.todo + b), 1);
          FailsFrom(fs, start, Spot(next.dest, next.todo + b), 1);
        }
        k := k + 1;
      }
    }
  }

  // ----- links being expanded -----

  function Links(fs: Fs): set<Path> {
    set p | p in fs && fs[p].Link?
  }

  ghost predicate Expands(fs: Fs, l: Path, p: Spot, more: seq<string>, k: nat) {
    l != [] && k > 0 && Leads(fs, Spot(Parent(l), [l[|l| - 1]]), Spot(p.dest, p.todo + more), k)
  }

  /** The expansion of the link `l` leads to `p`, perhaps with more to follow. */
  ghost predicate Under(fs: Fs, l: Path, p: Spot) {
    exists more, k: nat :: Expands(fs, l, p, more, k)
  }

  ghost predicate AllUnder(fs: Fs, open: set<Path>, p: Spot) {
    open <= Links(fs) && forall l :: l in open ==> Under(fs, l, p)
  }

  lemma UnderNext(fs: Fs, l: Path, p: Spot)
    requires Under(fs, l, p) && Follow(fs, p).Some? && !OntoFile(fs, p)
    ensures Under(fs, l, Follow(fs, p).value)
  {
    var more, k: nat :| Expands(fs, l, p, more, k);
    var next := Follow(fs, p).value;
    FollowMore(fs, p, more);
    assert Leads(fs, Spot(p.dest, p.todo + more), Spot(next.dest, next.todo + more), 1);
    LeadsOn(fs, Spot(Parent(l), [l[|l| - 1]]), Spot(p.dest, p.todo + more), Spot(next.dest, next.todo + more), k, 1);
    assert Expands(fs, l, next, more, k + 1);
  }

  /** What is under a link stays under it when only the first components are looked at. */
  lemma UnderFirst(fs: Fs, l: Path, p: Spot, rest: seq<string>)
    requires Under(fs, l, Spot(p.dest, p.todo + rest))
    ensures Under(fs, l, p)
  {
    var more, k: nat :| Expands(fs, l, Spot(p.dest, p.todo + rest), more, k);
    Assoc(p.todo, rest, more);
    assert Expands(fs, l, p, rest + more, k);
  }

  /** Once the first components are walked to a directory, the rest is still under the link. */
  lemma UnderRest(fs: Fs, l: Path, p: Spot, rest: seq<string>, n: nat)
    requires Under(fs, l, Spot(p.dest, p.todo + rest)) && RealDirs(fs, p.dest)
    requires Walk(fs, p.dest, p.todo, n).Some? && IsDir(fs, Walk(fs, p.dest, p.todo, n).value)
    ensures Under(fs, l, Spot(Walk(fs, p.dest, p.todo, n).value, rest))
  {
    var m := Walk(fs, p.dest, p.todo, n).value;
    var more, k: nat :| Expands(fs, l, Spot(p.dest, p.todo + rest), more, k);
    Assoc(p.todo, rest, more);
    var j := WalkArrives(fs, p, rest + more, n);
    LeadsOn(fs, Spot(Parent(l), [l[|l| - 1]]), Spot(p.dest, p.todo + (rest + more)), Spot(m, rest + more), k, j);
    assert Expands(fs, l, Spot(m, rest), more, k + j);
  }

  lemma LinkStep(fs: Fs, p: Spot) returns (into: Spot)
    requires AtLink(fs, p)
    ensures var l, rest := p.dest + [p.todo[0]], p.todo[1..];
            && l in Links(fs) && Under(fs, l, into)
            && Follow(fs, p) == Some(Spot(into.dest, into.todo + rest))
            && (into.dest == [] || into.dest == p.dest)
  {
    var c := p.todo[0];
    var l := p.dest + [c];
    var t := fs[l].target;
    into := Spot(LinkBase(p.dest, t), Split(t, '/'));
    assert into.todo + [] == into.todo && [c][1..] == [];
    assert Follow(fs, Spot(p.dest, [c])) == Some(Spot(into.dest, into.todo + []));
    assert Leads(fs, Spot(p.dest, [c]), Spot(into.dest, into.todo + []), 1);
    assert Parent(l) == p.dest && l[|l| - 1] == c;
    assert Expands(fs, l, into, [], 1);
  }

  /** A link met again under its own expansion loops. */
  lemma UnderItself(fs: Fs, p: Spot)
    requires AtLink(fs, p) && Under(fs, p.dest + [p.todo[0]], p)
    ensures Blocked(fs, p)
  {
    var c := p.todo[0];
    var l := p.dest + [c];
    assert Parent(l) == p.dest && l[|l| - 1] == c;
    var more, k: nat :| Expands(fs, l, p, more, k);
    assert p.todo + more == [c] + (p.todo[1..] + more);
  }

  // ----- every walk ends or is blocked -----

  lemma StepEnds(fs: Fs, p: Spot)
    requires Follow(fs, p).Some? && Ends(fs, Follow(fs, p).value)
    ensures Ends(fs, p)
  {
    var next := Follow(fs, p).value;
    var n: nat :| Walk(fs, next.dest, next.todo, n).Some?;
    if AtLink(fs, p) {
      assert Walk(fs, p.dest, p.todo, n + 1) == Walk(fs, next.dest, next.todo, n);
    } else {
      assert Walk(fs, p.dest, p.todo, n) == Walk(fs, next.dest, next.todo, n);
    }
  }

  lemma StepFails(fs: Fs, p: Spot)
    requires Follow(fs, p).Some? && Fails(fs, Follow(fs, p).value)
    ensures Fails(fs, p)
  {
    var next := Follow(fs, p).value;
    assert Leads(fs, next, next, 0) && Leads(fs, p, next, 1);
    FailsFrom(fs, p, next, 1);
  }

  ghost predicate Decided(fs: Fs, p: Spot) {
    Ends(fs, p) || Fails(fs, p)
  }

  lemma StepDecided(fs: Fs, p: Spot)
    requires Follow(fs, p).Some? && Decided(fs, Follow(fs, p).value)
    ensures Decided(fs, p)
  {
    if Ends(fs, Follow(fs, p).value) {
      StepEnds(fs, p);
    } else {
      StepFails(fs, p);
    }
  }

  lemma BlockedFails(fs: Fs, p: Spot)
    requires Blocked(fs, p)
    ensures Fails(fs, p)
  {
    assert Leads(fs, p, p, 0);
  }

  /** From the end of the first components on: the rest decides. */
  lemma DecidedAfter(fs: Fs, p: Spot, rest: seq<string>, n: nat)
    requires RealDirs(fs, p.dest) && Walk(fs, p.dest, p.todo, n).Some?
    requires var m := Walk(fs, p.dest, p.todo, n).value; rest != [] && IsDir(fs, m) ==> Decided(fs, Spot(m, rest))
    ensures Decided(fs, Spot(p.dest, p.todo + rest))
  {
    var m := Walk(fs, p.dest, p.todo, n).value;
    var k := WalkArrives(fs, p, rest, n);
    if rest == [] {
      assert p.todo + rest == p.todo;
    } else if IsDir(fs, m) {
      if Ends(fs, Spot(m, rest)) {
        var j: nat :| Walk(fs, m, rest, j).Some?;
        WalkJoins(fs, p.dest, p.todo, rest, n, j);
      } else {
        FailsFrom(fs, Spot(p.dest, p.todo + rest), Spot(m, rest), k);
      }
    }
  }

  lemma ArrivedRealDirs(fs: Fs, p: Spot, rest: seq<string>, n: nat)
    requires RealDirs(fs, p.dest) && Walk(fs, p.dest, p.todo, n).Some? && rest != []
    requires IsDir(fs, Walk(fs, p.dest, p.todo, n).value)
    ensures RealDirs(fs, Walk(fs, p.dest, p.todo, n).value)
  {
    var m := Walk(fs, p.dest, p.todo, n).value;
    var k := WalkArrives(fs, p, rest, n);
    LeadsRealDirs(fs, Spot(p.dest, p.todo + rest), Spot(m, rest), k);
  }

  /**
   Each link is expanded at most once inside its own expansion, and there are finitely many: the
   walk ends, or is blocked.
   */
  lemma {:induction false} WalkDecided(fs: Fs, p: Spot, open: set<Path>)
    requires RealDirs(fs, p.dest) && AllUnder(fs, open, p)
    ensures Decided(fs, p)
    decreases Links(fs) - open, |p.todo|, 1
  {
    if p.todo == [] {
      assert Walk(fs, p.dest, p.todo, 0).Some?;
    } else if Follow(fs, p).None? {
      BlockedFails(fs, p);
    } else if AtLink(fs, p) {
      LinkDecided(fs, p, open);
    } else if OntoFile(fs, p) {
      assert Walk(fs, p.dest, p.todo, 0).Some?;
    } else {
      NextRealDirs(fs, p);
      forall l | l in open ensures Under(fs, l, Follow(fs, p).value) {
        UnderNext(fs, l, p);
      }
      WalkDecided(fs, Follow(fs, p).value, open);
      StepDecided(fs, p);
    }
  }

  lemma {:induction false} LinkDecided(fs: Fs, p: Spot, open: set<Path>)
    requires RealDirs(fs, p.dest) && AllUnder(fs, open, p) && AtLink(fs, p)
    ensures Decided(fs, p)
    decreases Links(fs) - open, |p.todo|, 0
  {
    var l, rest := p.dest + [p.todo[0]], p.todo[1..];
    if l in open {
      UnderItself(fs, p);
      BlockedFails(fs, p);
    } else {
      var into := LinkStep(fs, p);
      assert RealDirs(fs, []);
      forall o | o in open ensures Under(fs, o, Spot(into.dest, into.todo + rest)) && Under(fs, o, into) {
        UnderNext(fs, o, p);
        UnderFirst(fs, o, into, rest);
      }
      WalkDecided(fs, into, open + {l});
      if Ends(fs, into) {
        var n: nat :| Walk(fs, into.dest, into.todo, n).Some?;
        RestDecided(fs, into, rest, n, open);
        DecidedAfter(fs, into, rest, n);
      } else {
        FailsMore(fs, into, rest);
      }
      StepDecided(fs, p);
    }
  }

  lemma {:induction false} RestDecided(fs: Fs, into: Spot, rest: seq<string>, n: nat, open: set<Path>)
    requires RealDirs(fs, into.dest) && Walk(fs, into.dest, into.todo, n).Some?
    requires AllUnder(fs, open, Spot(into.dest, into.todo + rest))
    ensures var m := Walk(fs, into.dest, into.todo, n).value;
            rest != [] && IsDir(fs, m) ==> Decided(fs, Spot(m, rest))
    decreases Links(fs) - open, |rest|, 2
  {
    var m := Walk(fs, into.dest, into.todo, n).value;
    if rest != [] && IsDir(fs, m) {
      ArrivedRealDirs(fs, into, rest, n);
      forall o | o in open ensures Under(fs, o, Spot(m, rest)) {
        UnderRest(fs, o, into, rest, n);
      }
      WalkDecided(fs, Spot(m, rest), open);
    }
  }

  /**
   Exactly which paths do not resolve: those whose walk comes to a missing entry, to a file with
   components left to follow, or to a link that is re-entered in its own expansion.
   */
  lemma UnresolvedIffBlocked(fs: Fs, p: Path)
    ensures Eval(fs, p) == None <==> Fails(fs, Spot([], p))
  {
    assert RealDirs(fs, []);
    WalkDecided(fs, Spot([], p), {});
    if Fails(fs, Spot([], p)) {
      FailsNeverEnds(fs, Spot([], p));
    } else {
      var n: nat :| Walk(fs, [], p, n).Some?;
      EvalIs(fs, [], p, n);
    }
  }

  /** Loops in particular, of any length and anywhere in the tree, whatever is left to follow. */
  lemma LoopNeverResolves(
      fs: Fs, p: Path, j: nat, d: Path, c: string, rest: seq<string>, more: seq<string>, k: nat)
    requires Leads(fs, Spot([], p), Spot(d, [c] + rest), j)
    requires AtLink(fs, Spot(d, [c])) && k > 0 && Leads(fs, Spot(d, [c]), Spot(d, [c] + more), k)
    ensures Eval(fs, p) == None
  {
    var q := Spot(d, [c] + rest);
    assert q.todo[0] == c && Loops(fs, d, c) && AtLink(fs, q);
    assert Blocked(fs, q) && Fails(fs, Spot([], p));
    UnresolvedIffBlocked(fs, p);
  }
}
