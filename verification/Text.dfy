/**
 Strings as the daemon and its web page handle them: splitting on a separator,
 joining, and trimming. The laws below are what the line scanner, the path code,
 the list flags and the event-stream parser all rest on.
 */
module Text {

  datatype Option<+T> = None | Some(value: T) {
    function GetOr(otherwise: T): T {
      if Some? then value else otherwise
    }
  }

  datatype Result<+T, +E> = Ok(value: T) | Err(error: E)

  lemma Assoc<T>(a: seq<T>, b: seq<T>, c: seq<T>)
    ensures a + (b + c) == (a + b) + c
  {
  }

  // ----- searching -----

  /** Position of the first `c`, or `|s|` when there is none. */
  function IndexOf(s: string, c: char): (i: nat)
    ensures i <= |s|
    ensures i < |s| ==> s[i] == c
    ensures c !in s[..i]
  {
    if s == "" || s[0] == c then 0
    else
      var i := IndexOf(s[1..], c);
      assert s[..i + 1] == [s[0]] + s[1..][..i];
      i + 1
  }

  lemma IndexOfSeparator(a: string, c: char, b: string)
    requires c !in a
    ensures IndexOf(a + [c] + b, c) == |a|
  {
    var s := a + [c] + b;
    var i := IndexOf(s, c);
    assert s[|a|] == c;
    assert forall k :: 0 <= k < |a| ==> s[k] == a[k] && a[k] in a;
    assert forall k :: 0 <= k < i ==> s[k] in s[..i];
  }

  lemma IndexOfNone(s: string, c: char)
    requires c !in s
    ensures IndexOf(s, c) == |s|
  {
    assert forall k :: 0 <= k < |s| ==> s[k] in s;
  }

  /** `strings.HasPrefix`: `p` is the beginning of `s`. */
  predicate HasPrefix(s: string, p: string) {
    p <= s
  }

  // ----- splitting and joining -----

  function Split(s: string, c: char): (parts: seq<string>)
    ensures |parts| > 0
    decreases |s|
  {
    var i := IndexOf(s, c);
    if i == |s| then [s] else [s[..i]] + Split(s[i + 1..], c)
  }

  function Join(parts: seq<string>, c: char): string {
    if parts == [] then ""
    else if |parts| == 1 then parts[0]
    else parts[0] + [c] + Join(parts[1..], c)
  }

  ghost predicate AllFree(parts: seq<string>, c: char) {
    forall i :: 0 <= i < |parts| ==> c !in parts[i]
  }

  /** Splitting loses nothing, and no piece holds the separator. */
  lemma {:induction false} JoinOfSplit(s: string, c: char)
    ensures Join(Split(s, c), c) == s
    ensures AllFree(Split(s, c), c)
    decreases |s|
  {
    var i := IndexOf(s, c);
    if i == |s| {
      assert s[..i] == s;
    } else {
      JoinOfSplit(s[i + 1..], c);
      assert s == s[..i] + [c] + s[i + 1..];
      assert Split(s, c)[1..] == Split(s[i + 1..], c);
    }
  }

  lemma SplitStep(a: string, c: char, b: string)
    requires c !in a
    ensures Split(a + [c] + b, c) == [a] + Split(b, c)
  {
    IndexOfSeparator(a, c, b);
    var s := a + [c] + b;
    assert s[..|a|] == a && s[|a| + 1..] == b;
  }

  lemma SplitSingle(a: string, c: char)
    requires c !in a
    ensures Split(a, c) == [a]
  {
    assert forall k :: 0 <= k < |a| ==> a[k] in a;
  }

  /** Pieces without the separator come back from their join. */
  lemma {:induction false} SplitOfJoin(parts: seq<string>, c: char)
    requires parts != [] && AllFree(parts, c)
    ensures Split(Join(parts, c), c) == parts
  {
    if |parts| == 1 {
      SplitSingle(parts[0], c);
    } else {
      SplitOfJoin(parts[1..], c);
      SplitStep(parts[0], c, Join(parts[1..], c));
    }
  }

  lemma {:induction false} SplitConcat(a: string, c: char, b: string)
    ensures Split(a + [c] + b, c) == Split(a, c) + Split(b, c)
    decreases |a|
  {
    var i := IndexOf(a, c);
    if i == |a| {
      assert a[..i] == a;
      SplitStep(a, c, b);
    } else {
      var head, tail := a[..i], a[i + 1..];
      assert a == head + [c] + tail;
      assert a + [c] + b == head + [c] + (tail + [c] + b);
      SplitStep(head, c, tail + [c] + b);
      SplitConcat(tail, c, b);
    }
  }

  // ----- trimming -----

  /** Whose notion of blank: Go's `unicode.IsSpace` or JavaScript's `trim`. */
  datatype Blanks = GoBlanks | JsBlanks

  predicate IsBlank(k: Blanks, c: char) {
    || c == ' ' || '\t' <= c <= '\r' || c == '\U{00A0}' || c == '\U{1680}'
    || c == '\U{2028}' || c == '\U{2029}' || c == '\U{202F}' || c == '\U{205F}' || c == '\U{3000}'
    || '\U{2000}' <= c <= '\U{200A}'
    || (k.GoBlanks? && c == '\U{0085}')
    || (k.JsBlanks? && c == '\U{FEFF}')
  }

  ghost predicate AllBlank(k: Blanks, s: string) {
    forall i :: 0 <= i < |s| ==> IsBlank(k, s[i])
  }

  predicate IsTrimmed(k: Blanks, s: string) {
    s == "" || (!IsBlank(k, s[0]) && !IsBlank(k, s[|s| - 1]))
  }

  function TrimLeft(k: Blanks, s: string): string {
    if s != "" && IsBlank(k, s[0]) then TrimLeft(k, s[1..]) else s
  }

  function TrimRight(k: Blanks, s: string): string {
    if s != "" && IsBlank(k, s[|s| - 1]) then TrimRight(k, s[..|s| - 1]) else s
  }

  function Trim(k: Blanks, s: string): string {
    TrimRight(k, TrimLeft(k, s))
  }

  lemma {:induction false} TrimLeftSpec(k: Blanks, s: string) returns (a: string)
    ensures AllBlank(k, a) && s == a + TrimLeft(k, s)
    ensures TrimLeft(k, s) != "" ==> !IsBlank(k, TrimLeft(k, s)[0])
  {
    a := "";
    if s != "" && IsBlank(k, s[0]) {
      a := TrimLeftSpec(k, s[1..]);
      a := [s[0]] + a;
    }
  }

  lemma {:induction false} TrimRightSpec(k: Blanks, s: string) returns (b: string)
    ensures AllBlank(k, b) && s == TrimRight(k, s) + b
    ensures TrimRight(k, s) != "" ==> !IsBlank(k, TrimRight(k, s)[|TrimRight(k, s)| - 1])
  {
    b := "";
    if s != "" && IsBlank(k, s[|s| - 1]) {
      b := TrimRightSpec(k, s[..|s| - 1]);
      b := b + [s[|s| - 1]];
    }
  }

  /** Trimming drops blanks at both ends, and leaves none there. */
  lemma TrimSpec(k: Blanks, s: string) returns (a: string, b: string)
    ensures AllBlank(k, a) && AllBlank(k, b)
    ensures s == a + Trim(k, s) + b
    ensures IsTrimmed(k, Trim(k, s))
    ensures Trim(k, s) == "" ==> b == ""
  {
    a := TrimLeftSpec(k, s);
    var l := TrimLeft(k, s);
    b := TrimRightSpec(k, l);
    assert TrimRight(k, l) == "" ==> l == b;
  }

  lemma {:induction false} TrimUnique(k: Blanks, a: string, t: string, b: string)
    requires AllBlank(k, a) && AllBlank(k, b) && IsTrimmed(k, t)
    ensures Trim(k, a + t + b) == t
    decreases |a| + |b|
  {
    var s := a + t + b;
    if a != "" {
      assert s[0] == a[0] && s[1..] == a[1..] + t + b;
      TrimUnique(k, a[1..], t, b);
    } else if t == "" {
      if b != "" {
        assert s == b && b[1..] == b[1..] + "" + "";
        TrimUnique(k, b[1..], "", "");
        assert Trim(k, b[1..]) == "";
      }
    } else if b != "" {
      assert s[|s| - 1] == b[|b| - 1] && s[..|s| - 1] == a + t + b[..|b| - 1];
      assert TrimLeft(k, s) == s;
      TrimUnique(k, a, t, b[..|b| - 1]);
      assert TrimLeft(k, s[..|s| - 1]) == s[..|s| - 1];
    } else {
      assert s == t;
    }
  }

  /** Trimming is the identity exactly on trimmed strings. */
  lemma TrimFixed(k: Blanks, t: string)
    ensures Trim(k, t) == t <==> IsTrimmed(k, t)
  {
    var a, b := TrimSpec(k, t);
    if IsTrimmed(k, t) {
      assert t == "" + t + "";
      TrimUnique(k, "", t, "");
    }
  }

  lemma TrimLeadingBlank(k: Blanks, c: char, s: string)
    requires IsBlank(k, c)
    ensures Trim(k, [c] + s) == Trim(k, s)
  {
    assert ([c] + s)[1..] == s;
  }
}
