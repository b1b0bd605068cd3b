/** The flag parser against a grammar: which command lines it accepts, and as what. */
module FlagGrammar {
  import opened Text
  import opened FlagScan

  // ----- the grammar -----

  /** A name a flag can have. */
  predicate GoodName(name: string) {
    name != "" && '=' !in name && name[0] != '-'
  }

  /** `-name` or `--name`. */
  predicate Spells(token: string, name: string) {
    token == "-" + name || token == "--" + name
  }

  /** The first words of `args` assign `item`, and `tail` is left. */
  predicate Assigns(args: seq<string>, item: Item, tail: seq<string>, table: Table, ok: Accepts) {
    && GoodName(item.name) && item.name in table && ok(item.name, item.value) && args != []
    && match item.source
       case Inline => Spells(args[0], item.name + "=" + item.value) && tail == args[1..]
       case Implied => table[item.name] && Spells(args[0], item.name) && item.value == "true" && tail == args[1..]
       case NextArg =>
         !table[item.name] && Spells(args[0], item.name) && |args| > 1 && item.value == args[1] && tail == args[2..]
  }

  /** What may stand behind the flags: nothing, a plain word, or `--` and anything. */
  predicate EndsSo(args: seq<string>, rest: seq<string>, end: End) {
    match end
    case AtEnd => args == [] && rest == []
    case AtDashes => args != [] && args[0] == "--" && rest == args[1..]
    case AtWord => args != [] && rest == args && !(|args[0]| > 1 && args[0][0] == '-')
    case Failed => false
  }

  ghost predicate Line(args: seq<string>, items: seq<Item>, rest: seq<string>, end: End, table: Table, ok: Accepts)
    decreases |items|
  {
    if items == [] then EndsSo(args, rest, end)
    else exists tail :: Assigns(args, items[0], tail, table, ok) && Line(tail, items[1..], rest, end, table, ok)
  }

  // ----- one flag -----

  lemma BodyOf(token: string, body: string)
    requires body != "" && body[0] != '-' && Spells(token, body)
    ensures |token| >= 2 && token[0] == '-' && token != "--" && FlagBody(token) == body
  {
    if token == "-" + body {
      assert token[1..] == body && token[1] == body[0];
    } else {
      assert token[2..] == body && token[1] == '-';
    }
  }

  lemma SpelledBody(token: string)
    requires |token| >= 2 && token[0] == '-'
    ensures Spells(token, FlagBody(token))
  {
    if token[1] == '-' {
      assert token == "--" + token[2..];
    } else {
      assert token == "-" + token[1..];
    }
  }

  lemma AssignedName(name: string, value: string)
    requires GoodName(name)
    ensures var body := name + "=" + value;
            IndexOf(body, '=') == |name| < |body| && body[..|name|] == name && body[|name| + 1..] == value
  {
    assert name + "=" + value == name + ['='] + value;
    IndexOfSeparator(name, '=', value);
  }

  lemma AssignsIsParsed(args: seq<string>, item: Item, tail: seq<string>, table: Table, ok: Accepts)
    requires Assigns(args, item, tail, table, ok)
    ensures ParseOne(args, table, ok) == Found(item, tail)
  {
    if item.source.Inline? {
      var body := item.name + "=" + item.value;
      AssignedName(item.name, item.value);
      BodyOf(args[0], body);
    } else {
      BodyOf(args[0], item.name);
      IndexOfNone(item.name, '=');
      assert item.name[..|item.name|] == item.name;
    }
  }

  lemma CutAtEquals(body: string, i: nat)
    requires i == IndexOf(body, '=') && body != "" && body[0] != '-' && body[0] != '='
    ensures GoodName(body[..i])
    ensures body == if i < |body| then body[..i] + "=" + body[i + 1..] else body[..i]
  {
    assert i > 0;
    assert body[..i][0] == body[0];
    if i == |body| {
      assert body[..i] == body;
    }
  }

  lemma ParsedIsAssigned(args: seq<string>, table: Table, ok: Accepts)
    requires args != [] && ParseOne(args, table, ok).Found?
    ensures Assigns(args, ParseOne(args, table, ok).item, ParseOne(args, table, ok).rest, table, ok)
  {
    var body := FlagBody(args[0]);
    SpelledBody(args[0]);
    CutAtEquals(body, IndexOf(body, '='));
  }

  // ----- the whole line -----

  lemma EndIsParsed(args: seq<string>, rest: seq<string>, end: End, table: Table, ok: Accepts)
    requires EndsSo(args, rest, end)
    ensures Parse(args, table, ok) == Parsed([], rest, end)
  {
  }

  lemma {:induction false} LineIsParsed(
      args: seq<string>, items: seq<Item>, rest: seq<string>, end: End, table: Table, ok: Accepts)
    requires Line(args, items, rest, end, table, ok)
    ensures Parse(args, table, ok) == Parsed(items, rest, end)
    decreases |items|
  {
    if items == [] {
      EndIsParsed(args, rest, end, table, ok);
    } else {
      var tail :| Assigns(args, items[0], tail, table, ok) && Line(tail, items[1..], rest, end, table, ok);
      AssignsIsParsed(args, items[0], tail, table, ok);
      LineIsParsed(tail, items[1..], rest, end, table, ok);
      assert [items[0]] + items[1..] == items;
    }
  }

  lemma {:induction false} ParsedIsLine(args: seq<string>, table: Table, ok: Accepts)
    requires !Parse(args, table, ok).end.Failed?
    ensures var p := Parse(args, table, ok); Line(args, p.items, p.rest, p.end, table, ok)
    decreases |args|
  {
    if args == [] {
    } else {
      var f := ParseOne(args, table, ok);
      if f.Found? {
        ParsedIsAssigned(args, table, ok);
        FoundRest(args, table, ok);
        ParsedIsLine(f.rest, table, ok);
        var q := Parse(f.rest, table, ok);
        assert ([f.item] + q.items)[0] == f.item && ([f.item] + q.items)[1..] == q.items;
      }
    }
  }

  /**
   The parser accepts a command line with these assignments and this rest if and only if the line is
   written so: no other reading of it, and no other line with it.
   */
  lemma ParsedIff(args: seq<string>, items: seq<Item>, rest: seq<string>, end: End, table: Table, ok: Accepts)
    requires !end.Failed?
    ensures Parse(args, table, ok) == Parsed(items, rest, end) <==> Line(args, items, rest, end, table, ok)
  {
    if Line(args, items, rest, end, table, ok) {
      LineIsParsed(args, items, rest, end, table, ok);
    } else if Parse(args, table, ok) == Parsed(items, rest, end) {
      ParsedIsLine(args, table, ok);
    }
  }
}
