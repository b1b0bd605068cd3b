/** The frames the server writes and both parsers read back. */
module EventFormat {

  /** A frame as written, or an event as dispatched. */
  datatype Event = Event(name: string, data: string)

  /** One frame without the blank line that ends it. */
  function Block(e: Event): string {
    (if e.name != "" then "event: " + e.name + "\n" else "") + ("data: " + e.data)
  }

  function Encode(e: Event): string {
    Block(e) + "\n\n"
  }

  function EncodeAll(es: seq<Event>): string {
    if es == [] then "" else Encode(es[0]) + EncodeAll(es[1..])
  }

  lemma {:induction false} EncodeAllConcat(a: seq<Event>, b: seq<Event>)
    ensures EncodeAll(a + b) == EncodeAll(a) + EncodeAll(b)
  {
    if a == [] {
      assert a + b == b;
    } else {
      assert (a + b)[1..] == a[1..] + b;
      EncodeAllConcat(a[1..], b);
    }
  }

  lemma EncodeAllSnoc(a: seq<Event>, e: Event)
    ensures EncodeAll(a + [e]) == EncodeAll(a) + Encode(e)
  {
    EncodeAllConcat(a, [e]);
    assert EncodeAll([e]) == Encode(e) + EncodeAll([]) == Encode(e);
  }

  function Concat(chunks: seq<string>): string {
    if chunks == [] then "" else chunks[0] + Concat(chunks[1..])
  }

  lemma {:induction false} ConcatSnoc(chunks: seq<string>, i: nat)
    requires i < |chunks|
    ensures Concat(chunks[..i + 1]) == Concat(chunks[..i]) + chunks[i]
  {
    if i == 0 {
    } else {
      assert chunks[..i + 1][1..] == chunks[1..][..i] && chunks[..i][1..] == chunks[1..][..i - 1];
      ConcatSnoc(chunks[1..], i - 1);
    }
  }

  lemma {:induction false} ConcatSplit(chunks: seq<string>, k: nat)
    requires k <= |chunks|
    ensures Concat(chunks) == Concat(chunks[..k]) + Concat(chunks[k..])
  {
    if k > 0 {
      ConcatSplit(chunks[1..], k - 1);
      assert chunks[..k][1..] == chunks[1..][..k - 1] && chunks[k..] == chunks[1..][k - 1..];
    } else {
      assert chunks[..0] == [] && chunks[0..] == chunks;
    }
  }
}
