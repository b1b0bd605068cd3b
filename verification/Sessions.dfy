/** The session store: which workdir, model and title belong to a session id, and since when. */
module Sessions {
  import opened Text

  datatype Record = Record(id: string, workdir: string, model: string, title: string, createdAt: int, lastUsed: int)

  type Recs = map<string, Record>

  /** The arguments of one `Upsert` and the clock reading it takes. */
  datatype Touch = Touch(id: string, workdir: string, model: string, title: string, now: int)

  // ----- what one Upsert does to the map -----

  function Merge(recs: Recs, t: Touch): Record {
    var rec := if t.id in recs then recs[t.id] else Record(t.id, "", "", "", t.now, t.now);
    Record(rec.id,
           if t.workdir != "" then t.workdir else rec.workdir,
           if t.model != "" then t.model else rec.model,
           if t.title != "" then t.title else rec.title,
           rec.createdAt,
           t.now)
  }

  function Updated(recs: Recs, t: Touch): Recs {
    if t.id == "" then recs else recs[t.id := Merge(recs, t)]
  }

  function UpdatedAll(recs: Recs, ts: seq<Touch>): Recs
    decreases |ts|
  {
    if ts == [] then recs else UpdatedAll(Updated(recs, ts[0]), ts[1..])
  }

  lemma {:induction false} UpdatedAllConcat(recs: Recs, a: seq<Touch>, b: seq<Touch>)
    ensures UpdatedAll(recs, a + b) == UpdatedAll(UpdatedAll(recs, a), b)
    decreases |a|
  {
    if a == [] {
      assert a + b == b;
    } else {
      assert (a + b)[1..] == a[1..] + b;
      UpdatedAllConcat(Updated(recs, a[0]), a[1..], b);
    }
  }

  // ----- a record is a summary of its history -----

  function HistoryOf(ts: seq<Touch>, id: string): seq<Touch> {
    if ts == [] then []
    else (if ts[0].id == id then [ts[0]] else []) + HistoryOf(ts[1..], id)
  }

  datatype Attribute = Workdir | Model | Title

  function Given(t: Touch, a: Attribute): string {
    match a case Workdir => t.workdir case Model => t.model case Title => t.title
  }

  function Kept(r: Record, a: Attribute): string {
    match a case Workdir => r.workdir case Model => r.model case Title => r.title
  }

  /** `v` is the last non-empty value given in the history, or the starting value if none was. */
  ghost predicate IsLatest(h: seq<Touch>, a: Attribute, start: string, v: string) {
    || (v == start && forall j :: 0 <= j < |h| ==> Given(h[j], a) == "")
    || (exists i :: 0 <= i < |h| && Given(h[i], a) == v && v != "" &&
                    forall j :: i < j < |h| ==> Given(h[j], a) == "")
  }

  function StartOf(recs: Recs, id: string, a: Attribute): string {
    if id in recs then Kept(recs[id], a) else ""
  }

  lemma LatestStep(h: seq<Touch>, a: Attribute, start: string, v: string)
    requires h != []
    requires IsLatest(h[1..], a, if Given(h[0], a) != "" then Given(h[0], a) else start, v)
    ensures IsLatest(h, a, start, v)
  {
    var next := if Given(h[0], a) != "" then Given(h[0], a) else start;
    if v == next && forall j :: 0 <= j < |h[1..]| ==> Given(h[1..][j], a) == "" {
      assert forall j :: 1 <= j < |h| ==> h[j] == h[1..][j - 1];
    } else {
      var i :| 0 <= i < |h[1..]| && Given(h[1..][i], a) == v && v != "" &&
               forall j :: i < j < |h[1..]| ==> Given(h[1..][j], a) == "";
      assert Given(h[i + 1], a) == v;
      assert forall j :: i + 1 < j < |h| ==> h[j] == h[1..][j - 1];
    }
  }

  /** What a record says about the touches of its id, the other ids' touches left out. */
  ghost predicate Summarises(recs: Recs, h: seq<Touch>, id: string, now: Recs) {
    && (id in now <==> id in recs || h != [])
    && (h == [] && id in recs ==> now[id] == recs[id])
    && (h != [] ==>
          && now[id].id == (if id in recs then recs[id].id else id)
          && now[id].createdAt == (if id in recs then recs[id].createdAt else h[0].now)
          && now[id].lastUsed == h[|h| - 1].now
          && forall a :: IsLatest(h, a, StartOf(recs, id, a), Kept(now[id], a)))
  }

  lemma {:induction false} StoreSummarisesHistory(recs: Recs, ts: seq<Touch>, id: string)
    requires id != ""
    ensures Summarises(recs, HistoryOf(ts, id), id, UpdatedAll(recs, ts))
    decreases |ts|
  {
    if ts == [] {
    } else {
      var next := Updated(recs, ts[0]);
      StoreSummarisesHistory(next, ts[1..], id);
      if ts[0].id == id {
        SummaryStep(recs, ts[0], HistoryOf(ts[1..], id), UpdatedAll(next, ts[1..]));
      } else {
        assert [] + HistoryOf(ts[1..], id) == HistoryOf(ts[1..], id);
        assert id in next <==> id in recs;
        assert forall a :: StartOf(next, id, a) == StartOf(recs, id, a);
      }
    }
  }

  lemma SummaryStep(recs: Recs, t: Touch, h: seq<Touch>, now: Recs)
    requires t.id != "" && Summarises(Updated(recs, t), h, t.id, now)
    ensures Summarises(recs, [t] + h, t.id, now)
  {
    var next, all := Updated(recs, t), [t] + h;
    assert all[1..] == h;
    forall a: Attribute
      ensures IsLatest(all, a, StartOf(recs, t.id, a), Kept(now[t.id], a))
    {
      assert StartOf(next, t.id, a) == if Given(t, a) != "" then Given(t, a) else StartOf(recs, t.id, a);
      assert IsLatest(h, a, StartOf(next, t.id, a), Kept(now[t.id], a));
      LatestStep(all, a, StartOf(recs, t.id, a), Kept(now[t.id], a));
    }
  }

  // ----- invariants over every sequence of Upserts -----

  /** Keys are ids, and no record was used before it was made or after time `t`. */
  ghost predicate WellKept(recs: Recs, t: int) {
    forall id :: id in recs ==> recs[id].id == id && recs[id].createdAt <= recs[id].lastUsed <= t
  }

  ghost predicate Monotone(ts: seq<Touch>, from: int) {
    (forall i :: 0 <= i < |ts| ==> from <= ts[i].now) &&
    (forall i, j :: 0 <= i < j < |ts| ==> ts[i].now <= ts[j].now)
  }

  lemma {:induction false} UpsertsKeepOrder(recs: Recs, ts: seq<Touch>, from: int, to: int)
    requires WellKept(recs, from) && Monotone(ts, from) && from <= to
    requires forall i :: 0 <= i < |ts| ==> ts[i].now <= to
    ensures WellKept(UpdatedAll(recs, ts), to)
    decreases |ts|
  {
    if ts == [] {
    } else {
      var t := ts[0];
      assert forall i :: 0 <= i < |ts[1..]| ==> ts[1..][i] == ts[i + 1];
      UpsertsKeepOrder(Updated(recs, t), ts[1..], t.now, to);
    }
  }

  /** An earlier map seen from a later one: fewer keys and the same births. */
  ghost predicate Behind(m: Recs, later: Recs) {
    m.Keys <= later.Keys && forall id :: id in m ==> m[id].createdAt == later[id].createdAt
  }

  ghost predicate UsedNoLater(m: Recs, later: Recs) {
    forall id :: id in m && id in later ==> m[id].lastUsed <= later[id].lastUsed
  }

  // ----- the file -----

  /** What a path holds: `Torn` is any text that does not parse, which an empty file is not. */
  datatype Content = Absent | Empty | Torn | Whole(recs: Recs)

  /** `Open`: no file or an empty one gives an empty store; text that does not parse is an error. */
  function Load(c: Content): Option<Recs> {
    match c
    case Absent => Some(map[])
    case Empty => Some(map[])
    case Torn => None
    case Whole(m) => Some(m)
  }

  // ----- listing -----

  ghost predicate SortedByUse(rs: seq<Record>) {
    forall i, j :: 0 <= i < j < |rs| ==> rs[i].lastUsed >= rs[j].lastUsed
  }

  function Insert(r: Record, rs: seq<Record>): (out: seq<Record>)
    requires SortedByUse(rs)
    ensures SortedByUse(out)
    ensures out != [] && (out[0] == r || (rs != [] && out[0] == rs[0]))
    ensures multiset(out) == multiset{r} + multiset(rs)
  {
    if rs == [] then [r]
    else if r.lastUsed >= rs[0].lastUsed then [r] + rs
    else
      var more := Insert(r, rs[1..]);
      assert rs == [rs[0]] + rs[1..];
      [rs[0]] + more
  }

  /** Stands for `sort.Slice`, which leaves the order of equal times open. */
  function SortByUse(rs: seq<Record>): (out: seq<Record>)
    ensures SortedByUse(out) && multiset(out) == multiset(rs)
  {
    if rs == [] then []
    else
      assert rs == [rs[0]] + rs[1..];
      Insert(rs[0], SortByUse(rs[1..]))
  }

  function Pick(recs: Recs, order: seq<string>): seq<Record>
    requires forall i :: 0 <= i < |order| ==> order[i] in recs
  {
    seq(|order|, i requires 0 <= i < |order| => recs[order[i]])
  }

  /** Every key of the map once, in some order. */
  ghost predicate Enumerates(order: seq<string>, keys: set<string>) {
    (forall i :: 0 <= i < |order| ==> order[i] in keys) &&
    (forall k :: k in keys ==> k in order) &&
    (forall i, j :: 0 <= i < j < |order| ==> order[i] != order[j])
  }

  /** What can go wrong before the file is even parsed. */
  datatype OpenFault = NoOpenFault | NoDirectory | Unreadable

  /** How the disk behaves during one `persist`. */
  datatype Fault = NoFault | WriteFails | RenameFails

  class Store {
    var recs: Recs
    var file: Content  // the store file
    var tmp: Content   // its ".tmp" neighbour

    constructor (recs: Recs, file: Content, tmp: Content)
      ensures this.recs == recs && this.file == file && this.tmp == tmp
    {
      this.recs, this.file, this.tmp := recs, file, tmp;
    }

    /** Null stands for the error `Open` returns: no directory, an unreadable file, or one that does not parse. */
    static method Open(file: Content, tmp: Content, fault: OpenFault) returns (s: Store?)
      ensures s == null <==> !fault.NoOpenFault? || file.Torn?
      ensures s != null ==> fresh(s) && Load(file) == Some(s.recs) && s.file == file && s.tmp == tmp
      ensures s != null ==> s.recs == if file.Whole? then file.recs else map[]
    {
      if fault.NoDirectory? || fault.Unreadable? {
        return null;
      }
      var loaded := Load(file);
      if loaded.None? {
        return null;
      }
      s := new Store(loaded.value, file, tmp);
    }

    method Get(id: string) returns (r: Option<Record>)
      ensures r.Some? <==> id in recs
      ensures r.Some? ==> r.value == recs[id]
    {
      r := if id in recs then Some(recs[id]) else None;
    }

    /** Each record once, latest used first; `order` says which key each came from. */
    method List() returns (out: seq<Record>, ghost order: seq<string>)
      ensures SortedByUse(out)
      ensures Enumerates(order, recs.Keys)
      ensures multiset(out) == multiset(Pick(recs, order))
    {
      out, order := [], [];
      var left := recs.Keys;
      while left != {}
        invariant left <= recs.Keys
        invariant Enumerates(order, recs.Keys - left)
        invariant out == Pick(recs, order)
        decreases left
      {
        var k :| k in left;
        left := left - {k};
        out := out + [recs[k]];
        order := order + [k];
      }
      out := SortByUse(out);
    }

    method SnapshotLocked() returns (cp: Recs)
      ensures cp == recs
    {
      cp := map[];
      var left := recs.Keys;
      while left != {}
        invariant left <= recs.Keys
        invariant cp == map k | k in recs && k !in left :: recs[k]
        decreases left
      {
        var k :| k in left;
        left := left - {k};
        cp := cp[k := recs[k]];
      }
    }

    /** Write the neighbour, then rename it over the file; a fault leaves the file alone. */
    method Persist(snapshot: Recs, fault: Fault) returns (ok: bool)
      modifies this
      ensures recs == old(recs)
      ensures ok <==> fault.NoFault?
      ensures file == if ok then Whole(snapshot) else old(file)
      ensures ok ==> tmp == Absent
    {
      if fault.WriteFails? {
        tmp := Torn;
        return false;
      }
      tmp := Whole(snapshot);
      if fault.RenameFails? {
        return false;
      }
      file, tmp := tmp, Absent;
      return true;
    }

    method Upsert(t: Touch, fault: Fault) returns (ok: bool)
      modifies this
      ensures recs == Updated(old(recs), t)
      ensures t.id == "" ==> recs == old(recs) && file == old(file)
      ensures ok <==> t.id == "" || fault.NoFault?
      ensures file == if ok && t.id != "" then Whole(recs) else old(file)
    {
      if t.id == "" {
        return true;
      }
      var rec := if t.id in recs then recs[t.id] else Record(t.id, "", "", "", t.now, t.now);
      if t.workdir != "" {
        rec := rec.(workdir := t.workdir);
      }
      if t.model != "" {
        rec := rec.(model := t.model);
      }
      if t.title != "" {
        rec := rec.(title := t.title);
      }
      rec := rec.(lastUsed := t.now);
      recs := recs[t.id := rec];
      var snapshot := SnapshotLocked();
      ok := Persist(snapshot, fault);
    }
  }
}
