/** The content of an assistant message, and the page's loop over it. */
module MessageContent {
  import opened Text

  /**
   A field that the page appends to a text: missing or falsy, a value that turns into text, or one
   whose conversion throws.
   */
  datatype Label = NoLabel | Label(text: string) | BrokenLabel

  /** An element of the content; one that is no object has no kind. */
  datatype Part = NullPart | Part(kind: string, text: Label, name: Label)

  /** `obj.message?.content`: missing or falsy, not iterable, a text, or an array. */
  datatype Body = NoBody | NotIterable | Characters | Parts(parts: seq<Part>)

  /** The text so far, and whether the loop threw. */
  datatype Reading = Reading(text: string, threw: bool)

  function ReadPart(text: string, b: Part): Reading {
    match b
    case NullPart => Reading(text, true)
    case Part(kind, t, name) =>
      if kind == "text" && t.Label? then Reading(text + t.text, false)
      else Reading(text, (kind == "text" && t.BrokenLabel?) || (kind == "tool_use" && name.BrokenLabel?))
  }

  function ReadParts(text: string, bs: seq<Part>): Reading
    decreases |bs|
  {
    if bs == [] then Reading(text, false)
    else
      var r := ReadPart(text, bs[0]);
      if r.threw then r else ReadParts(r.text, bs[1..])
  }

  /** The characters of a text have no kind, so a text is read like an empty array. */
  function LoopOver(text: string, body: Body): Reading {
    match body
    case NoBody => Reading(text, false)
    case NotIterable => Reading(text, true)
    case Characters => Reading(text, false)
    case Parts(bs) => ReadParts(text, bs)
  }

  // ----- what the loop amounts to -----

  predicate PartBreaks(b: Part) {
    match b
    case NullPart => true
    case Part(kind, t, name) => (kind == "text" && t.BrokenLabel?) || (kind == "tool_use" && name.BrokenLabel?)
  }

  predicate BodyBreaks(body: Body) {
    body.NotIterable? || (body.Parts? && exists i :: 0 <= i < |body.parts| && PartBreaks(body.parts[i]))
  }

  /** The text blocks, in order. */
  function WordsOf(bs: seq<Part>): string {
    if bs == [] then ""
    else (if bs[0].Part? && bs[0].kind == "text" && bs[0].text.Label? then bs[0].text.text else "") + WordsOf(bs[1..])
  }

  function WordsIn(body: Body): string {
    if body.Parts? then WordsOf(body.parts) else ""
  }

  lemma {:induction false} ReadPartsMeans(text: string, bs: seq<Part>)
    ensures ReadParts(text, bs).threw <==> exists i :: 0 <= i < |bs| && PartBreaks(bs[i])
    ensures !ReadParts(text, bs).threw ==> ReadParts(text, bs).text == text + WordsOf(bs)
    decreases |bs|
  {
    if bs == [] {
      assert text + "" == text;
    } else {
      var r := ReadPart(text, bs[0]);
      ReadPartsMeans(r.text, bs[1..]);
      assert r.threw <==> PartBreaks(bs[0]);
      if !r.threw && BodyBreaks(Parts(bs)) {
        var i :| 0 <= i < |bs| && PartBreaks(bs[i]);
        assert bs[1..][i - 1] == bs[i];
      }
      var word := if bs[0].Part? && bs[0].kind == "text" && bs[0].text.Label? then bs[0].text.text else "";
      assert r.text == text + word;
      Assoc(text, word, WordsOf(bs[1..]));
    }
  }

  /** The loop throws exactly on breaking content, and otherwise appends the text blocks in order. */
  lemma LoopMeans(text: string, body: Body)
    ensures LoopOver(text, body).threw <==> BodyBreaks(body)
    ensures !LoopOver(text, body).threw ==> LoopOver(text, body).text == text + WordsIn(body)
  {
    match body
    case Parts(bs) => ReadPartsMeans(text, bs);
    case _ =>
      assert text + "" == text;
  }

  /** The loop itself. */
  method ReadContent(start: string, body: Body) returns (text: string, threw: bool)
    ensures Reading(text, threw) == LoopOver(start, body)
  {
    text, threw := start, body.NotIterable?;
    if !body.Parts? {
      return;
    }
    var bs := body.parts;
    assert bs[0..] == bs;
    for i := 0 to |bs|
      invariant !threw && ReadParts(text, bs[i..]) == ReadParts(start, bs)
    {
      assert bs[i..][0] == bs[i] && bs[i..][1..] == bs[i + 1..];
      var b := bs[i];
      if b.NullPart? {
        return text, true;
      }
      if b.kind == "text" && !b.text.NoLabel? {
        if b.text.BrokenLabel? {
          return text, true;
        }
        text := text + b.text.text;
      } else if b.kind == "tool_use" && b.name.BrokenLabel? {
        return text, true;
      }
    }
    assert bs[|bs|..] == [];
  }
}
