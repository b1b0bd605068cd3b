/** What cleaning a path means: `..` goes up, and where no link is met it goes where the tree leads. */
module CleanPaths {
  import opened Text
  import opened FileTree
  import opened Allowlist

  lemma {:induction false} CleanConcat(stack: Path, a: seq<string>, b: seq<string>)
    ensures Clean(stack, a + b) == Clean(Clean(stack, a), b)
    decreases |a|
  {
    if a == [] {
      assert a + b == b;
    } else {
      assert (a + b)[0] == a[0] && (a + b)[1..] == a[1..] + b;
      CleanConcat(if a[0] in {"", "."} then stack else if a[0] == ".." then Parent(stack) else stack + [a[0]],
                  a[1..], b);
    }
  }

  // ----- the laws of cleaning -----

  /** A name and the `..` behind it cancel, wherever they stand. */
  lemma UpUndoesName(stack: Path, a: seq<string>, n: string, b: seq<string>)
    requires ProperName(n)
    ensures Clean(stack, a + [n, ".."] + b) == Clean(stack, a + b)
  {
    var s := Clean(stack, a);
    CleanConcat(stack, a + [n, ".."], b);
    CleanConcat(stack, a, [n, ".."]);
    CleanConcat(stack, a, b);
    assert [n, ".."][1..] == [".."] && [".."][1..] == [];
    assert Clean(s + [n], [".."]) == Clean(s, []);
  }

  lemma UpAtRoot(b: seq<string>)
    ensures Clean([], [".."] + b) == Clean([], b)
  {
    assert ([".."] + b)[1..] == b;
  }

  /** An empty component and `.` mean nothing. */
  lemma DotsVanish(stack: Path, a: seq<string>, dot: string, b: seq<string>)
    requires dot in {"", "."}
    ensures Clean(stack, a + [dot] + b) == Clean(stack, a + b)
  {
    CleanConcat(stack, a + [dot], b);
    CleanConcat(stack, a, [dot]);
    CleanConcat(stack, a, b);
    assert [dot][1..] == [];
    assert Clean(Clean(stack, a), [dot]) == Clean(Clean(stack, a), []);
  }

  lemma CleanRendered(w: Path)
    requires Proper(w)
    ensures Clean([], Split(Render(w), '/')) == w
  {
    AbsOfRender(None, w);
  }

  /** Relative text is read from the working directory. */
  lemma AbsOfRelative(w: Path, p: string)
    requires Proper(w) && !HasPrefix(p, "/")
    ensures Abs(Some(Render(w)), p) == Some(Clean(w, Split(p, '/')))
  {
    var parts := Split(p, '/');
    SplitConcat(Render(w), '/', p);
    assert Render(w) + "/" + p == Render(w) + ['/'] + p;
    CleanConcat([], Split(Render(w), '/'), parts);
    CleanRendered(w);
  }

  // ----- cleaning and the tree -----

  /** Where no link is met, cleaning the text gives the very entry the components lead to. */
  lemma {:induction false} CleanIsWalk(fs: Fs, dest: Path, todo: seq<string>)
    requires Walk(fs, dest, todo, 0).Some?
    ensures Walk(fs, dest, todo, 0) == Some(Clean(dest, todo))
    decreases |todo|
  {
    if todo == [] {
    } else {
      var c, rest := todo[0], todo[1..];
      if c == "" || c == "." {
        CleanIsWalk(fs, dest, rest);
      } else if c == ".." {
        CleanIsWalk(fs, Parent(dest), rest);
      } else {
        CleanIsWalk(fs, dest + [c], rest);
      }
    }
  }

  lemma RealIsCanonical(fs: Fs, r: Path)
    requires Real(fs, r)
    ensures Canonical(fs, r) == r
  {
    RealResolvesToItself(fs, r);
  }

  /**
   An absolute workdir that exists and meets no link is admitted exactly if the entry it leads to,
   every `..` on the way followed, is covered by a root; and under that entry's own name.
   */
  lemma LinkFreeAdmission(fs: Fs, roots: seq<string>, cwd: Option<string>, p: string, r: Path)
    requires HasPrefix(p, "/") && Walk(fs, [], Split(p, '/'), 0) == Some(r)
    ensures Validated(fs, roots, cwd, p) == if Covered(fs, roots, cwd, r) then Some(Render(r)) else None
  {
    JoinOfSplit(p, '/');
    CleanIsWalk(fs, [], Split(p, '/'));
    WalkIsReal(fs, [], Split(p, '/'), 0);
    RealIsCanonical(fs, r);
  }

  /**
   The way out: a root and a real directory `w` beside another real entry `n`. Naming `n` through
   `w/..` is refused unless `n` itself is covered, whatever else there is.
   */
  lemma NoWayOutThroughDotDot(fs: Fs, cwd: Option<string>, up: Path, w: string, n: string)
    requires ProperName(w) && ProperName(n) && w != n && Proper(up)
    requires Real(fs, up + [w]) && Real(fs, up + [n])
    ensures Validated(fs, [Render(up + [w])], cwd, Render(up + [w]) + "/../" + n) == None
  {
    var root, p := Render(up + [w]), Render(up + [w]) + "/../" + n;
    AbsOfUp(cwd, up, w, n);
    AbsOfRender(cwd, up + [w]);
    RealIsCanonical(fs, up + [w]);
    RealIsCanonical(fs, up + [n]);
    assert (up + [w])[|up|] == w && (up + [n])[|up|] == n;
    assert !CoveredBy(fs, root, cwd, up + [n]);
    assert forall i :: 0 <= i < |[root]| ==> [root][i] == root;
    assert !Covered(fs, [root], cwd, up + [n]);
  }

  lemma AbsOfUp(cwd: Option<string>, up: Path, w: string, n: string)
    requires ProperName(w) && ProperName(n) && Proper(up)
    ensures Abs(cwd, Render(up + [w]) + "/../" + n) == Some(up + [n])
  {
    var base, tail := up + [w], ".." + ['/'] + n;
    assert Render(base) + "/../" + n == Render(base) + ['/'] + tail;
    SplitConcat(Render(base), '/', tail);
    SplitUp(n);
    CleanRendered(base);
    CleanConcat([], Split(Render(base), '/'), ["..", n]);
    CleanUp(up, w, n);
    assert HasPrefix(Render(base) + "/../" + n, "/");
  }

  lemma SplitUp(n: string)
    requires ProperName(n)
    ensures Split(".." + ['/'] + n, '/') == ["..", n]
  {
    SplitStep("..", '/', n);
    SplitSingle(n, '/');
  }

  lemma CleanUp(up: Path, w: string, n: string)
    requires ProperName(n)
    ensures Clean(up + [w], ["..", n]) == up + [n]
  {
    assert ["..", n][1..] == [n] && [n][1..] == [];
    assert Parent(up + [w]) == up;
    assert Clean(up, [n]) == Clean(up + [n], []);
  }

  // ----- which paths are covered -----

  /** Equal to the root, or inside it; nothing is inside `/`. */
  predicate Inside(root: Path, x: Path) {
    x == root || (root != [] && |root| < |x| && x[..|root|] == root)
  }

  /** A path is admitted if and only if some root, both made canonical, is or holds it. */
  lemma AdmittedIff(fs: Fs, roots: seq<string>, cwd: Option<string>, p: string)
    ensures Validated(fs, roots, cwd, p).Some? <==>
            && Abs(cwd, p).Some?
            && exists i :: 0 <= i < |roots| && Abs(cwd, roots[i]).Some? &&
                           Inside(Canonical(fs, Abs(cwd, roots[i]).value), Canonical(fs, Abs(cwd, p).value))
  {
    if Abs(cwd, p).Some? {
      var x := Canonical(fs, Abs(cwd, p).value);
      forall i | 0 <= i < |roots| && Abs(cwd, roots[i]).Some?
        ensures CoveredBy(fs, roots[i], cwd, x) <==> Inside(Canonical(fs, Abs(cwd, roots[i]).value), x)
      {
      }
      assert Covered(fs, roots, cwd, x) <==> exists i :: 0 <= i < |roots| && CoveredBy(fs, roots[i], cwd, x);
    }
  }
}
