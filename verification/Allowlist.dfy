/**
 Which workdirs a request may name: the path is made absolute and clean, its links are resolved
 as far as it exists, and the result must lie under an allowed root resolved in the same way.
 */
module Allowlist {
  import opened Text
  import opened FileTree

  // ----- paths as text -----

  function Render(p: Path): string {
    "/" + Join(p, '/')
  }

  /** `filepath.Clean` of the components that follow the clean path `stack`. */
  function Clean(stack: Path, todo: seq<string>): Path
    decreases |todo|
  {
    if todo == [] then stack
    else if todo[0] == "" || todo[0] == "." then Clean(stack, todo[1..])
    else if todo[0] == ".." then Clean(Parent(stack), todo[1..])
    else Clean(stack + [todo[0]], todo[1..])
  }

  /**
   `filepath.Abs`. `cwd` is the absolute text `os.Getwd` returns, clean or not, and `None` when the
   working directory cannot be read.
   */
  function Abs(cwd: Option<string>, p: string): Option<Path> {
    if HasPrefix(p, "/") then Some(Clean([], Split(p, '/')))
    else match cwd
      case None => None
      case Some(wd) => Some(Clean([], Split(wd + "/" + p, '/')))
  }

  lemma {:induction false} CleanIsProper(stack: Path, todo: seq<string>)
    requires Proper(stack) && SlashFree(todo)
    ensures Proper(Clean(stack, todo))
    decreases |todo|
  {
    if todo == [] {
    } else {
      if todo[0] == "" || todo[0] == "." {
        CleanIsProper(stack, todo[1..]);
      } else if todo[0] == ".." {
        CleanIsProper(Parent(stack), todo[1..]);
      } else {
        CleanIsProper(stack + [todo[0]], todo[1..]);
      }
    }
  }

  lemma AbsIsProper(cwd: Option<string>, p: string)
    requires Abs(cwd, p).Some?
    ensures Proper(Abs(cwd, p).value)
  {
    var text := if HasPrefix(p, "/") then p else cwd.value + "/" + p;
    JoinOfSplit(text, '/');
    CleanIsProper([], Split(text, '/'));
  }

  lemma {:induction false} CleanKeepsProper(stack: Path, todo: Path)
    requires Proper(todo)
    ensures Clean(stack, todo) == stack + todo
    decreases |todo|
  {
    if todo == [] {
      assert stack + [] == stack;
    } else {
      CleanKeepsProper(stack + [todo[0]], todo[1..]);
      assert stack + [todo[0]] + todo[1..] == stack + todo;
    }
  }

  /** The pieces after the leading slash: the components, or one empty piece for the root. */
  function Pieces(w: Path): seq<string> {
    if w == [] then [""] else w
  }

  lemma SplitRender(w: Path)
    requires Proper(w)
    ensures Split(Render(w), '/') == [""] + Pieces(w)
  {
    SplitStep("", '/', Join(w, '/'));
    assert Render(w) == "" + ['/'] + Join(w, '/');
    if w == [] {
      SplitSingle("", '/');
    } else {
      SplitOfJoin(w, '/');
    }
  }

  /** A clean path comes back from its text unchanged. */
  lemma AbsOfRender(cwd: Option<string>, w: Path)
    requires Proper(w)
    ensures Abs(cwd, Render(w)) == Some(w)
  {
    SplitRender(w);
    var parts := Split(Render(w), '/');
    if w == [] {
      assert parts[1..] == [""] && parts[1..][1..] == [];
      assert Clean([], parts[1..]) == Clean([], []) == [];
    } else {
      assert parts[1..] == w;
      CleanKeepsProper([], w);
      assert [] + w == w;
    }
  }

  // ----- the text test for "under a root" -----

  lemma {:induction false} JoinConcat(a: Path, b: Path)
    requires a != [] && b != []
    ensures Join(a + b, '/') == Join(a, '/') + "/" + Join(b, '/')
  {
    if |a| == 1 {
      assert (a + b)[1..] == b;
    } else {
      assert (a + b)[1..] == a[1..] + b;
      JoinConcat(a[1..], b);
    }
  }

  /** `clean == root || HasPrefix(clean, root + "/")`. */
  predicate UnderText(clean: string, root: string) {
    clean == root || HasPrefix(clean, root + "/")
  }

  lemma UnderTextHolds(x: Path, root: Path)
    requires root <= x && root != []
    ensures UnderText(Render(x), Render(root))
  {
    var ext := x[|root|..];
    assert x == root + ext;
    if ext == [] {
      assert x == root;
    } else {
      JoinConcat(root, ext);
      assert Render(x) == Render(root) + "/" + Join(ext, '/');
    }
  }

  lemma PiecesSame(x: Path, root: Path)
    requires Proper(x) && Proper(root) && Pieces(x) == Pieces(root)
    ensures x == root
  {
    assert x != [] ==> x[0] != "";
    assert root != [] ==> root[0] != "";
  }

  lemma PiecesLonger(x: Path, root: Path, more: seq<string>)
    requires Proper(x) && Proper(root) && more != [] && Pieces(x) == Pieces(root) + more
    ensures root != [] && root <= x
  {
    assert x[0] != "" && Pieces(x)[0] == Pieces(root)[0];
  }

  lemma UnderTextMeans(x: Path, root: Path)
    requires Proper(x) && Proper(root) && UnderText(Render(x), Render(root))
    ensures root <= x && (root == [] ==> x == [])
  {
    SplitRender(x);
    SplitRender(root);
    if Render(x) == Render(root) {
      assert ([""] + Pieces(x))[1..] == Pieces(x) && ([""] + Pieces(root))[1..] == Pieces(root);
      PiecesSame(x, root);
    } else {
      var text := Render(root);
      var rest := Render(x)[|text| + 1..];
      assert Render(x) == text + ['/'] + rest;
      SplitConcat(text, '/', rest);
      var more := Split(rest, '/');
      DropFirst(Pieces(x), Pieces(root), more);
      PiecesLonger(x, root, more);
    }
  }

  lemma DropFirst(a: seq<string>, b: seq<string>, more: seq<string>)
    requires [""] + a == [""] + b + more
    ensures a == b + more
  {
    assert a == ([""] + a)[1..] == ([""] + b + more)[1..] == b + more;
  }

  /** On clean paths the text test is the component-prefix test, except that root `/` admits only `/`. */
  lemma UnderTextIsPrefix(x: Path, root: Path)
    requires Proper(x) && Proper(root)
    ensures UnderText(Render(x), Render(root)) <==> root <= x && (root == [] ==> x == [])
  {
    if UnderText(Render(x), Render(root)) {
      UnderTextMeans(x, root);
    } else if root <= x && root != [] {
      UnderTextHolds(x, root);
    }
  }

  // ----- canonical paths -----

  /** The deepest resolvable ancestor, resolved, and the rest of the path behind it. */
  ghost function Canonical(fs: Fs, p: Path): Path {
    match Eval(fs, p)
    case Some(r) => r
    case None => if p == [] then p else Canonical(fs, p[..|p| - 1]) + [p[|p| - 1]]
  }

  /** Independent of the walk upwards: `k` is the one length below which every ancestor resolves. */
  ghost predicate Deepest(fs: Fs, p: Path, k: nat) {
    k <= |p| && forall j :: 0 <= j <= |p| ==> (Eval(fs, p[..j]).Some? <==> j <= k)
  }

  lemma {:induction false} CanonicalIsDeepest(fs: Fs, p: Path) returns (k: nat)
    ensures Deepest(fs, p, k)
    ensures Canonical(fs, p) == Eval(fs, p[..k]).value + p[k..]
  {
    if Eval(fs, p).Some? {
      k := |p|;
      assert p[..k] == p;
      forall j | 0 <= j <= |p|
        ensures Eval(fs, p[..j]).Some?
      {
        AncestorsResolve(fs, p, j);
      }
      assert Canonical(fs, p) + [] == Canonical(fs, p);
    } else {
      EvalRoot(fs);
      var up := p[..|p| - 1];
      k := CanonicalIsDeepest(fs, up);
      assert up[..k] == p[..k] && p[k..] == up[k..] + [p[|p| - 1]];
      assert p[..|p|] == p;
      forall j | 0 <= j <= |p|
        ensures Eval(fs, p[..j]).Some? <==> j <= k
      {
        if j < |p| {
          assert p[..j] == up[..j];
        }
      }
    }
  }

  lemma ProperIsSlashFree(p: Path)
    requires Proper(p)
    ensures SlashFree(p)
  {
  }

  lemma CanonicalIsProper(fs: Fs, p: Path)
    requires Proper(p)
    ensures Proper(Canonical(fs, p))
  {
    var k := CanonicalIsDeepest(fs, p);
    assert Eval(fs, p[..k]).Some?;
    ProperIsSlashFree(p[..k]);
    EvalIsReal(fs, p[..k]);
  }

  /** Behind the resolved ancestor nothing resolves any more. */
  lemma RestDoesNotResolve(fs: Fs, p: Path, k: nat, j: nat)
    requires Proper(p) && Deepest(fs, p, k) && k < j <= |p|
    ensures Eval(fs, p[..k]).Some? && Eval(fs, Eval(fs, p[..k]).value + p[k..j]) == None
  {
    assert Eval(fs, p[..k]).Some? && Eval(fs, p[..j]).None?;
    ProperIsSlashFree(p[..k]);
    EvalComposes(fs, p[..k], p[k..j]);
    assert p[..k] + p[k..j] == p[..j];
  }

  /** Canonicalising again changes nothing, on any tree. */
  lemma CanonicalIdempotent(fs: Fs, p: Path)
    requires Proper(p)
    ensures Canonical(fs, Canonical(fs, p)) == Canonical(fs, p)
  {
    var q := Canonical(fs, p);
    var k := CanonicalIsDeepest(fs, p);
    assert Eval(fs, p[..k]).Some?;
    var m := Eval(fs, p[..k]).value;
    ProperIsSlashFree(p[..k]);
    EvalIsReal(fs, p[..k]);
    RealResolvesToItself(fs, m);
    assert q[..|m|] == m && q[|m|..] == p[k..];
    forall j | 0 <= j <= |q|
      ensures Eval(fs, q[..j]).Some? <==> j <= |m|
    {
      if j <= |m| {
        assert q[..j] == m[..j];
        AncestorsResolve(fs, m, j);
      } else {
        RestDoesNotResolve(fs, p, k, k + (j - |m|));
        assert q[..j] == m + p[k..k + (j - |m|)];
      }
    }
    var l := CanonicalIsDeepest(fs, q);
    assert Eval(fs, q[..l]).Some? && Eval(fs, q[..|m|]).Some?;
  }

  // ----- the checks as the server runs them -----

  type EvalSymlinks = Path -> Option<Path>

  /** What the code relies on: `filepath.EvalSymlinks` resolves paths of this tree. */
  ghost predicate Resolves(eval: EvalSymlinks, fs: Fs) {
    forall p :: eval(p) == Eval(fs, p)
  }

  /**
   The upward walk. The branch for a root that does not resolve is not needed: the root always
   does, so the walk stops there at the latest.
   */
  method Canonicalize(eval: EvalSymlinks, ghost fs: Fs, p: Path) returns (r: Path)
    requires Resolves(eval, fs)
    ensures r == Canonical(fs, p)
  {
    var resolved := eval(p);
    if resolved.Some? {
      return resolved.value;
    }
    EvalRoot(fs);
    var dir, rest := p, [];
    while true
      invariant dir != [] && eval(dir).None?
      invariant Canonical(fs, p) == Canonical(fs, dir) + rest
      decreases |dir|
    {
      rest := [dir[|dir| - 1]] + rest;
      dir := dir[..|dir| - 1];
      resolved := eval(dir);
      if resolved.Some? {
        return resolved.value + rest;
      }
    }
  }

  /** Some allowed root, canonical, is a component prefix; `/` as a root covers only `/` itself. */
  ghost predicate Covered(fs: Fs, roots: seq<string>, cwd: Option<string>, x: Path) {
    exists i :: 0 <= i < |roots| && CoveredBy(fs, roots[i], cwd, x)
  }

  ghost predicate CoveredBy(fs: Fs, root: string, cwd: Option<string>, x: Path) {
    var abs := Abs(cwd, root);
    abs.Some? && Canonical(fs, abs.value) <= x && (Canonical(fs, abs.value) == [] ==> x == [])
  }

  ghost function Validated(fs: Fs, roots: seq<string>, cwd: Option<string>, p: string): Option<string> {
    match Abs(cwd, p)
    case None => None
    case Some(abs) =>
      var x := Canonical(fs, abs);
      if Covered(fs, roots, cwd, x) then Some(Render(x)) else None
  }

  method ValidatePath(eval: EvalSymlinks, ghost fs: Fs, roots: seq<string>, cwd: Option<string>, p: string)
    returns (r: Option<string>)
    requires Resolves(eval, fs)
    ensures r == Validated(fs, roots, cwd, p)
  {
    var abs := Abs(cwd, p);
    if abs.None? {
      return None;
    }
    AbsIsProper(cwd, p);
    var x := Canonicalize(eval, fs, abs.value);
    CanonicalIsProper(fs, abs.value);
    var clean := Render(x);
    for i := 0 to |roots|
      invariant forall k :: 0 <= k < i ==> !CoveredBy(fs, roots[k], cwd, x)
    {
      var rootAbs := Abs(cwd, roots[i]);
      if rootAbs.Some? {
        AbsIsProper(cwd, roots[i]);
        var root := Canonicalize(eval, fs, rootAbs.value);
        CanonicalIsProper(fs, rootAbs.value);
        UnderTextIsPrefix(x, root);
        if UnderText(clean, Render(root)) {
          return Some(clean);
        }
      }
    }
    return None;
  }

  /** An accepted path is accepted again, under the same name: what a resume relies on. */
  lemma AcceptedAgain(fs: Fs, roots: seq<string>, cwd: Option<string>, p: string)
    requires Validated(fs, roots, cwd, p).Some?
    ensures var w := Validated(fs, roots, cwd, p).value; Validated(fs, roots, cwd, w) == Some(w)
  {
    var abs := Abs(cwd, p).value;
    AbsIsProper(cwd, p);
    CanonicalIsProper(fs, abs);
    CanonicalIdempotent(fs, abs);
    AbsOfRender(cwd, Canonical(fs, abs));
  }

  /** The accepted text is clean, and its existing part holds no link: it is where a process would go. */
  lemma AcceptedIsReal(fs: Fs, roots: seq<string>, cwd: Option<string>, p: string) returns (m: Path, rest: Path)
    requires Validated(fs, roots, cwd, p).Some?
    ensures Validated(fs, roots, cwd, p) == Some(Render(m + rest)) && Proper(m + rest)
    ensures Real(fs, m)
    ensures rest != [] ==> Eval(fs, m + rest[..1]).None?
  {
    var abs := Abs(cwd, p).value;
    AbsIsProper(cwd, p);
    CanonicalIsProper(fs, abs);
    var k := CanonicalIsDeepest(fs, abs);
    assert Eval(fs, abs[..k]).Some?;
    m, rest := Eval(fs, abs[..k]).value, abs[k..];
    ProperIsSlashFree(abs[..k]);
    EvalIsReal(fs, abs[..k]);
    if rest != [] {
      RestDoesNotResolve(fs, abs, k, k + 1);
      assert abs[k..k + 1] == rest[..1];
    }
  }

  /** Configuring `/` as the only root admits nothing but `/`. */
  lemma RootSlashAdmitsOnlyItself(fs: Fs, cwd: Option<string>, p: string)
    ensures Validated(fs, ["/"], cwd, p).Some? <==> Abs(cwd, p).Some? && Canonical(fs, Abs(cwd, p).value) == []
  {
    EvalRoot(fs);
    AbsOfRender(cwd, []);
    assert Render([]) == "/";
    if Abs(cwd, p).Some? {
      var x := Canonical(fs, Abs(cwd, p).value);
      assert CoveredBy(fs, "/", cwd, x) <==> x == [];
      assert Covered(fs, ["/"], cwd, x) <==> CoveredBy(fs, ["/"][0], cwd, x);
    }
  }
}
