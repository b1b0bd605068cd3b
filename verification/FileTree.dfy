/**
 A file tree with directories, files and symbolic links, and link resolution in it as Go's
 `filepath.EvalSymlinks` does it on an absolute path, with any finite number of links allowed.
 A path is the sequence of its components below the root.
 */
module FileTree {
  import opened Text

  type Path = seq<string>

  datatype Entry = Dir | File | Link(target: string)

  /** Entries by path; the root is always there. */
  type Fs = map<Path, Entry>

  function Find(fs: Fs, p: Path): Option<Entry> {
    if p == [] then Some(Dir) else if p in fs then Some(fs[p]) else None
  }

  predicate ProperName(n: string) {
    n != "" && n != "." && n != ".." && '/' !in n
  }

  /** Free of empty, `.` and `..` components. */
  predicate Proper(p: Path) {
    forall i :: 0 <= i < |p| ==> ProperName(p[i])
  }

  function Parent(p: Path): Path {
    if p == [] then [] else p[..|p| - 1]
  }

  function LinkBase(dest: Path, target: string): Path {
    if HasPrefix(target, "/") then [] else dest
  }

  /** Follow the components `todo` from the directory `dest`, through at most `fuel` links. */
  function Walk(fs: Fs, dest: Path, todo: seq<string>, fuel: nat): Option<Path>
    decreases fuel, |todo|
  {
    if todo == [] then Some(dest)
    else
      var c, rest := todo[0], todo[1..];
      if c == "" || c == "." then Walk(fs, dest, rest, fuel)
      else if c == ".." then Walk(fs, Parent(dest), rest, fuel)
      else
        match Find(fs, dest + [c])
        case None => None
        case Some(Dir) => Walk(fs, dest + [c], rest, fuel)
        case Some(File) => if rest == [] then Some(dest + [c]) else None
        case Some(Link(t)) =>
          if fuel == 0 then None else Walk(fs, LinkBase(dest, t), Split(t, '/') + rest, fuel - 1)
  }

  /** The real path, if following the links ever ends: loops and dangling links give `None`. */
  ghost function EvalFrom(fs: Fs, dest: Path, todo: seq<string>): Option<Path> {
    if exists n: nat :: Walk(fs, dest, todo, n).Some? then
      var n: nat :| Walk(fs, dest, todo, n).Some?;
      Walk(fs, dest, todo, n)
    else None
  }

  ghost function Eval(fs: Fs, p: Path): Option<Path> {
    EvalFrom(fs, [], p)
  }

  // ----- the number of links allowed does not matter once it suffices -----

  lemma {:induction false} MoreFuel(fs: Fs, dest: Path, todo: seq<string>, n: nat, m: nat)
    requires n <= m && Walk(fs, dest, todo, n).Some?
    ensures Walk(fs, dest, todo, m) == Walk(fs, dest, todo, n)
    decreases n, |todo|
  {
    if todo == [] {
    } else {
      var c, rest := todo[0], todo[1..];
      if c == "" || c == "." {
        MoreFuel(fs, dest, rest, n, m);
      } else if c == ".." {
        MoreFuel(fs, Parent(dest), rest, n, m);
      } else {
        match Find(fs, dest + [c])
        case Some(Dir) => MoreFuel(fs, dest + [c], rest, n, m);
        case Some(Link(t)) => MoreFuel(fs, LinkBase(dest, t), Split(t, '/') + rest, n - 1, m - 1);
        case _ =>
      }
    }
  }

  lemma EvalIs(fs: Fs, dest: Path, todo: seq<string>, n: nat)
    requires Walk(fs, dest, todo, n).Some?
    ensures EvalFrom(fs, dest, todo) == Walk(fs, dest, todo, n)
  {
    var k: nat :| Walk(fs, dest, todo, k).Some? && EvalFrom(fs, dest, todo) == Walk(fs, dest, todo, k);
    if k <= n {
      MoreFuel(fs, dest, todo, k, n);
    } else {
      MoreFuel(fs, dest, todo, n, k);
    }
  }

  // ----- composing walks -----

  predicate IsDir(fs: Fs, p: Path) {
    Find(fs, p) == Some(Dir)
  }

  /** Where a walk stopped, the next one can go on: at a directory, or nowhere at all. */
  predicate CanGoOn(fs: Fs, m: Path, rest: seq<string>) {
    rest == [] || IsDir(fs, m)
  }

  predicate RealDirs(fs: Fs, p: Path) {
    forall i :: 0 <= i <= |p| ==> IsDir(fs, p[..i])
  }

  lemma ParentRealDirs(fs: Fs, p: Path)
    requires RealDirs(fs, p)
    ensures RealDirs(fs, Parent(p)) && IsDir(fs, p)
  {
    assert p[..|p|] == p;
    assert forall i :: 0 <= i <= |Parent(p)| ==> Parent(p)[..i] == p[..i];
  }

  lemma ChildRealDirs(fs: Fs, p: Path, c: string)
    requires RealDirs(fs, p) && IsDir(fs, p + [c])
    ensures RealDirs(fs, p + [c])
  {
    var q := p + [c];
    assert q[..|q|] == q;
    assert forall i :: 0 <= i <= |p| ==> q[..i] == p[..i];
  }

  lemma {:induction false} WalkSplits(fs: Fs, dest: Path, a: seq<string>, b: seq<string>, n: nat)
    requires RealDirs(fs, dest) && Walk(fs, dest, a + b, n).Some?
    ensures Walk(fs, dest, a, n).Some?
    ensures var m := Walk(fs, dest, a, n).value;
            CanGoOn(fs, m, b) && Walk(fs, m, b, n) == Walk(fs, dest, a + b, n)
    decreases n, |a|
  {
    ParentRealDirs(fs, dest);
    if a == [] {
      assert a + b == b;
    } else {
      var c, rest := a[0], a[1..];
      assert (a + b)[1..] == rest + b;
      if c == "" || c == "." {
        WalkSplits(fs, dest, rest, b, n);
      } else if c == ".." {
        WalkSplits(fs, Parent(dest), rest, b, n);
      } else {
        match Find(fs, dest + [c])
        case Some(Dir) =>
          ChildRealDirs(fs, dest, c);
          WalkSplits(fs, dest + [c], rest, b, n);
        case Some(Link(t)) =>
          Assoc(Split(t, '/'), rest, b);
          assert RealDirs(fs, []);
          WalkSplits(fs, LinkBase(dest, t), Split(t, '/') + rest, b, n - 1);
          MoreFuel(fs, Walk(fs, dest, a, n).value, b, n - 1, n);
        case _ =>
      }
    }
  }

  lemma {:induction false} WalkJoins(fs: Fs, dest: Path, a: seq<string>, b: seq<string>, n: nat, k: nat)
    requires RealDirs(fs, dest) && Walk(fs, dest, a, n).Some?
    requires CanGoOn(fs, Walk(fs, dest, a, n).value, b)
    requires Walk(fs, Walk(fs, dest, a, n).value, b, k).Some?
    ensures Walk(fs, dest, a + b, n + k) == Walk(fs, Walk(fs, dest, a, n).value, b, k)
    decreases n, |a|
  {
    ParentRealDirs(fs, dest);
    if a == [] {
      assert a + b == b;
      MoreFuel(fs, dest, b, k, n + k);
    } else {
      var c, rest := a[0], a[1..];
      assert (a + b)[1..] == rest + b;
      if c == "" || c == "." {
        WalkJoins(fs, dest, rest, b, n, k);
      } else if c == ".." {
        WalkJoins(fs, Parent(dest), rest, b, n, k);
      } else {
        match Find(fs, dest + [c])
        case Some(Dir) =>
          ChildRealDirs(fs, dest, c);
          WalkJoins(fs, dest + [c], rest, b, n, k);
        case Some(Link(t)) =>
          Assoc(Split(t, '/'), rest, b);
          assert RealDirs(fs, []);
          WalkJoins(fs, LinkBase(dest, t), Split(t, '/') + rest, b, n - 1, k);
        case _ =>
      }
    }
  }

  // ----- real paths -----

  /** A path that exists, with directories all the way and no link anywhere. */
  predicate Real(fs: Fs, r: Path) {
    && Proper(r)
    && RealDirs(fs, Parent(r))
    && (IsDir(fs, r) || Find(fs, r) == Some(File))
  }

  predicate SlashFree(todo: seq<string>) {
    forall i :: 0 <= i < |todo| ==> '/' !in todo[i]
  }

  lemma ChildIsReal(fs: Fs, dest: Path, c: string)
    requires RealDirs(fs, dest) && Proper(dest) && '/' !in c && c !in {"", ".", ".."}
    ensures Proper(dest + [c])
    ensures IsDir(fs, dest + [c]) ==> RealDirs(fs, dest + [c])
    ensures Find(fs, dest + [c]) == Some(File) ==> Real(fs, dest + [c])
  {
    assert Parent(dest + [c]) == dest;
    if IsDir(fs, dest + [c]) {
      ChildRealDirs(fs, dest, c);
    }
  }

  lemma ExpandedLink(fs: Fs, dest: Path, t: string, rest: seq<string>)
    requires RealDirs(fs, dest) && Proper(dest) && SlashFree(rest)
    ensures RealDirs(fs, LinkBase(dest, t)) && Proper(LinkBase(dest, t)) && SlashFree(Split(t, '/') + rest)
  {
    JoinOfSplit(t, '/');
    assert RealDirs(fs, []);
  }

  lemma {:induction false} WalkIsReal(fs: Fs, dest: Path, todo: seq<string>, n: nat)
    requires RealDirs(fs, dest) && Proper(dest) && SlashFree(todo) && Walk(fs, dest, todo, n).Some?
    ensures Real(fs, Walk(fs, dest, todo, n).value)
    decreases n, |todo|
  {
    ParentRealDirs(fs, dest);
    if todo == [] {
    } else {
      var c, rest := todo[0], todo[1..];
      if c == "" || c == "." {
        WalkIsReal(fs, dest, rest, n);
      } else if c == ".." {
        WalkIsReal(fs, Parent(dest), rest, n);
      } else {
        ChildIsReal(fs, dest, c);
        match Find(fs, dest + [c])
        case Some(Dir) => WalkIsReal(fs, dest + [c], rest, n);
        case Some(Link(t)) =>
          ExpandedLink(fs, dest, t, rest);
          WalkIsReal(fs, LinkBase(dest, t), Split(t, '/') + rest, n - 1);
        case _ =>
      }
    }
  }

  /** A real path resolves to itself, whichever of its directories the walk starts in. */
  lemma {:induction false} RealStays(fs: Fs, r: Path, i: nat, n: nat)
    requires Real(fs, r) && i <= |r|
    ensures Walk(fs, r[..i], r[i..], n) == Some(r)
    decreases |r| - i
  {
    if i == |r| {
      assert r[..i] == r;
    } else {
      assert r[..i] + [r[i]] == r[..i + 1] && r[i..][1..] == r[i + 1..];
      assert ProperName(r[i]);
      if i + 1 < |r| {
        assert Parent(r)[..i + 1] == r[..i + 1];
      } else {
        assert r[..i + 1] == r;
      }
      RealStays(fs, r, i + 1, n);
    }
  }

  lemma RealResolvesToItself(fs: Fs, r: Path)
    requires Real(fs, r)
    ensures Eval(fs, r) == Some(r)
  {
    RealStays(fs, r, 0, 0);
    assert r[..0] == [] && r[0..] == r;
    EvalIs(fs, [], r, 0);
  }

  lemma EvalIsReal(fs: Fs, p: Path)
    requires SlashFree(p) && Eval(fs, p).Some?
    ensures Real(fs, Eval(fs, p).value)
  {
    var n: nat :| Walk(fs, [], p, n).Some?;
    EvalIs(fs, [], p, n);
    WalkIsReal(fs, [], p, n);
  }

  lemma EvalRoot(fs: Fs)
    ensures Eval(fs, []) == Some([])
  {
    assert Walk(fs, [], [], 0) == Some([]);
    EvalIs(fs, [], [], 0);
  }

  // ----- resolution composes -----

  lemma EvalSplits(fs: Fs, a: seq<string>, b: seq<string>)
    requires Eval(fs, a + b).Some?
    ensures Eval(fs, a).Some? && CanGoOn(fs, Eval(fs, a).value, b)
    ensures EvalFrom(fs, Eval(fs, a).value, b) == Eval(fs, a + b)
  {
    var n: nat :| Walk(fs, [], a + b, n).Some?;
    EvalIs(fs, [], a + b, n);
    WalkSplits(fs, [], a, b, n);
    EvalIs(fs, [], a, n);
    EvalIs(fs, Walk(fs, [], a, n).value, b, n);
  }

  lemma EvalJoins(fs: Fs, a: seq<string>, b: seq<string>)
    requires Eval(fs, a).Some? && CanGoOn(fs, Eval(fs, a).value, b)
    requires EvalFrom(fs, Eval(fs, a).value, b).Some?
    ensures Eval(fs, a + b) == EvalFrom(fs, Eval(fs, a).value, b)
  {
    var n: nat :| Walk(fs, [], a, n).Some?;
    EvalIs(fs, [], a, n);
    var m := Walk(fs, [], a, n).value;
    var k: nat :| Walk(fs, m, b, k).Some?;
    EvalIs(fs, m, b, k);
    WalkJoins(fs, [], a, b, n, k);
    EvalIs(fs, [], a + b, n + k);
  }

  /** Resolving a path is resolving its beginning first and putting the rest behind the result. */
  lemma EvalComposes(fs: Fs, a: seq<string>, b: seq<string>)
    requires SlashFree(a)
    ensures Eval(fs, a + b) == match Eval(fs, a) case None => None case Some(m) => Eval(fs, m + b)
  {
    if Eval(fs, a + b).Some? {
      EvalSplits(fs, a, b);
    }
    if Eval(fs, a).Some? {
      var m := Eval(fs, a).value;
      EvalIsReal(fs, a);
      RealResolvesToItself(fs, m);
      if Eval(fs, m + b).Some? {
        EvalSplits(fs, m, b);
        EvalJoins(fs, a, b);
      } else if Eval(fs, a + b).Some? {
        EvalJoins(fs, m, b);
      }
    }
  }

  /** If a path resolves, so does every path above it. */
  lemma AncestorsResolve(fs: Fs, p: Path, j: nat)
    requires j <= |p| && Eval(fs, p).Some?
    ensures Eval(fs, p[..j]).Some?
  {
    assert p[..j] + p[j..] == p;
    EvalSplits(fs, p[..j], p[j..]);
  }

  // ----- what a link means -----

  lemma FromDirectory(fs: Fs, d: Path, rest: seq<string>)
    requires Proper(d) && RealDirs(fs, d)
    ensures Eval(fs, d + rest) == EvalFrom(fs, d, rest)
  {
    ParentRealDirs(fs, d);
    RealResolvesToItself(fs, d);
    if Eval(fs, d + rest).Some? {
      EvalSplits(fs, d, rest);
    } else if EvalFrom(fs, d, rest).Some? {
      EvalJoins(fs, d, rest);
    }
  }

  lemma LinkCostsOne(fs: Fs, d: Path, c: string, t: string)
    requires ProperName(c) && Find(fs, d + [c]) == Some(Link(t))
    ensures EvalFrom(fs, d, [c]) == EvalFrom(fs, LinkBase(d, t), Split(t, '/'))
  {
    var base, todo := LinkBase(d, t), Split(t, '/');
    assert [c][1..] == [] && todo + [] == todo;
    if n: nat :| Walk(fs, base, todo, n).Some? {
      assert Walk(fs, d, [c], n + 1) == Walk(fs, base, todo, n);
      EvalIs(fs, base, todo, n);
      EvalIs(fs, d, [c], n + 1);
    } else {
      forall n: nat
        ensures Walk(fs, d, [c], n).None?
      {
        assert n > 0 ==> Walk(fs, d, [c], n) == Walk(fs, base, todo, n - 1);
      }
    }
  }

  /**
   A link in a directory resolves as its target: read from that directory if the target is relative,
   from the root if it is absolute.
   */
  lemma LinkMeans(fs: Fs, d: Path, c: string, t: string)
    requires Proper(d) && RealDirs(fs, d) && ProperName(c) && Find(fs, d + [c]) == Some(Link(t))
    ensures Eval(fs, d + [c]) == Eval(fs, if HasPrefix(t, "/") then Split(t, '/') else d + Split(t, '/'))
  {
    FromDirectory(fs, d, [c]);
    LinkCostsOne(fs, d, c, t);
    FromDirectory(fs, d, Split(t, '/'));
  }
}
