/**
 The command line is read twice: a pre-scan that only wants `--config`, then the full parse.
 And lists of paths in flags and environment variables are split and joined.
 */
module FlagScan {
  import opened Text

  // ----- Go's flag package -----

  /** Flag names, and whether the flag is boolean. */
  type Table = map<string, bool>

  /** Whether a flag of that name accepts that value. */
  type Accepts = (string, string) -> bool

  /** Where a value came from: `--f=v`, `--f v`, or a boolean flag on its own. */
  datatype Source = Inline | NextArg | Implied

  datatype Item = Item(name: string, value: string, source: Source)

  datatype One = Stop(rest: seq<string>, end: End) | Fail | Found(item: Item, rest: seq<string>)

  /** How a parse ends: no words left, at a plain word, behind `--`, or with an error. */
  datatype End = AtEnd | AtWord | AtDashes | Failed

  /** The name part of a flag token, one or two dashes removed. */
  function FlagBody(s: string): string
    requires |s| >= 2
  {
    if s[1] == '-' then s[2..] else s[1..]
  }

  function ParseOne(args: seq<string>, table: Table, ok: Accepts): One
    requires args != []
  {
    var s := args[0];
    if |s| < 2 || s[0] != '-' then Stop(args, AtWord)
    else if s == "--" then Stop(args[1..], AtDashes)
    else
      var body := FlagBody(s);
      if body == "" || body[0] == '-' || body[0] == '=' then Fail
      else
        var i := IndexOf(body, '=');
        var name := body[..i];
        if name !in table then Fail
        else if i < |body| then Keep(Item(name, body[i + 1..], Inline), args[1..], ok)
        else if table[name] then Keep(Item(name, "true", Implied), args[1..], ok)
        else if |args| < 2 then Fail
        else Keep(Item(name, args[1], NextArg), args[2..], ok)
  }

  function Keep(item: Item, rest: seq<string>, ok: Accepts): One {
    if ok(item.name, item.value) then Found(item, rest) else Fail
  }

  /** The assignments made before the parse ended, and how it ended. */
  datatype Parsed = Parsed(items: seq<Item>, rest: seq<string>, end: End)

  function Parse(args: seq<string>, table: Table, ok: Accepts): Parsed
    decreases |args|
  {
    if args == [] then Parsed([], [], AtEnd)
    else
      match ParseOne(args, table, ok)
      case Stop(rest, end) => Parsed([], rest, end)
      case Fail => Parsed([], [], Failed)
      case Found(item, rest) =>
        var p := Parse(rest, table, ok);
        Parsed([item] + p.items, p.rest, p.end)
  }

  function LastOr(items: seq<Item>, name: string, value: string): string
    decreases |items|
  {
    if items == [] then value
    else LastOr(items[1..], name, if items[0].name == name then items[0].value else value)
  }

  /** The value a flag ends up with: the last assignment wins, "" if there is none. */
  function ValueOf(items: seq<Item>, name: string): string {
    LastOr(items, name, "")
  }

  lemma {:induction false} LastOrMeans(items: seq<Item>, name: string, value: string)
    ensures (forall i :: 0 <= i < |items| ==> items[i].name != name) ==> LastOr(items, name, value) == value
    ensures forall i :: LastNamed(items, name, i) ==> LastOr(items, name, value) == items[i].value
    decreases |items|
  {
    if items == [] {
    } else {
      var more, next := items[1..], if items[0].name == name then items[0].value else value;
      LastOrMeans(more, name, next);
      assert forall j :: 0 < j < |items| ==> items[j] == more[j - 1];
      forall i | LastNamed(items, name, i)
        ensures LastOr(items, name, value) == items[i].value
      {
        if i > 0 {
          assert LastNamed(more, name, i - 1);
        } else {
          assert forall j :: 0 <= j < |more| ==> more[j] == items[j + 1];
        }
      }
    }
  }

  ghost predicate LastNamed(items: seq<Item>, name: string, i: int) {
    0 <= i < |items| && items[i].name == name && forall j :: i < j < |items| ==> items[j].name != name
  }

  /** The value of a flag is that of the assignment with the greatest index, or empty without any. */
  lemma LastWins(items: seq<Item>, name: string)
    ensures (forall i :: 0 <= i < |items| ==> items[i].name != name) ==> ValueOf(items, name) == ""
    ensures forall i :: LastNamed(items, name, i) ==> ValueOf(items, name) == items[i].value
  {
    LastOrMeans(items, name, "");
  }

  // ----- the pre-scan -----

  function TrimDashes(s: string): string {
    if s != "" && s[0] == '-' then TrimDashes(s[1..]) else s
  }

  predicate IsNamed(a: string, name: string) {
    TrimDashes(a) == name
  }

  predicate IsAssigned(a: string, name: string) {
    HasPrefix(TrimDashes(a), name + "=")
  }

  function Strip(args: seq<string>, name: string): seq<string>
    decreases |args|
  {
    if args == [] then []
    else if IsNamed(args[0], name) then
      if |args| > 1 && !HasPrefix(args[1], "-") then [args[0], args[1]] + Strip(args[2..], name)
      else [args[0]] + Strip(args[1..], name)
    else if IsAssigned(args[0], name) then [args[0]] + Strip(args[1..], name)
    else Strip(args[1..], name)
  }

  method StripUnknownExcept(args: seq<string>, name: string) returns (out: seq<string>)
    ensures out == Strip(args, name)
  {
    out := [];
    var i := 0;
    while i < |args|
      invariant 0 <= i <= |args|
      invariant out + Strip(args[i..], name) == Strip(args, name)
    {
      var a := args[i];
      ghost var tail := args[i..];
      assert tail[0] == a && tail[1..] == args[i + 1..];
      if TrimDashes(a) == name {
        out := out + [a];
        if i + 1 < |args| && !HasPrefix(args[i + 1], "-") {
          assert tail[1] == args[i + 1] && tail[2..] == args[i + 2..];
          out := out + [args[i + 1]];
          i := i + 1;
        }
      } else if HasPrefix(TrimDashes(a), name + "=") {
        out := out + [a];
      }
      i := i + 1;
    }
    assert args[|args|..] == [];
  }

  function PreTable(): Table {
    map["config" := false]
  }

  /** What the pre-scan takes for the value of `--config`; errors in it are ignored. */
  function PreScan(args: seq<string>, ok: Accepts): string {
    ValueOf(Parse(Strip(args, "config"), PreTable(), ok).items, "config")
  }

  // ----- agreement -----

  predicate ReadsAsConfig(a: string) {
    IsNamed(a, "config") || IsAssigned(a, "config")
  }

  /**
   A separate value the pre-scan cannot mistake: for `config` one it keeps, having no dash or
   reading as the flag itself, for any other flag one it drops.
   */
  predicate Clear(item: Item) {
    item.source.NextArg? ==>
      if item.name == "config" then !HasPrefix(item.value, "-") || ReadsAsConfig(item.value)
      else !ReadsAsConfig(item.value)
  }

  predicate PlainLed(words: seq<string>) {
    words != [] && !HasPrefix(words[0], "-")
  }

  /** The value of `config` is itself taken for the flag, and the plain word behind it for its value. */
  predicate Swallows(item: Item, rest: seq<string>) {
    && item.name == "config" && item.source.NextArg?
    && HasPrefix(item.value, "-") && IsNamed(item.value, "config") && PlainLed(rest)
  }

  /** Neither a separate value nor a word behind the flags is mistaken for the flag or its value. */
  ghost predicate Unmistakable(p: Parsed) {
    && (forall i :: 0 <= i < |p.items| ==> Clear(p.items[i]))
    && (forall i :: 0 <= i < |p.rest| ==> !ReadsAsConfig(p.rest[i]))
    && !(p.items != [] && p.end.AtWord? && Swallows(p.items[|p.items| - 1], p.rest))
  }

  function OnlyConfig(items: seq<Item>): seq<Item> {
    if items == [] then []
    else (if items[0].name == "config" then [items[0]] else []) + OnlyConfig(items[1..])
  }

  lemma {:induction false} StripNothing(args: seq<string>)
    ensures Strip(args, "config") == [] <==> forall i :: 0 <= i < |args| ==> !ReadsAsConfig(args[i])
  {
    if args == [] {
    } else {
      StripNothing(args[1..]);
      assert forall i :: 0 < i < |args| ==> args[i] == args[1..][i - 1];
    }
  }

  /** A flag token without its dashes. */
  lemma TrimmedToken(s: string)
    requires |s| >= 2 && s[0] == '-' && FlagBody(s) != "" && FlagBody(s)[0] != '-'
    ensures TrimDashes(s) == FlagBody(s)
  {
    if s[1] == '-' {
      assert s[1..][1..] == s[2..];
    }
  }

  lemma TokenIs(body: string, name: string)
    requires '=' !in name
    ensures body == name <==> body[..IndexOf(body, '=')] == name && IndexOf(body, '=') == |body|
  {
    if body == name {
      IndexOfNone(body, '=');
      assert body[..|body|] == body;
    }
  }

  lemma AssignmentIndex(body: string, name: string)
    requires '=' !in name && HasPrefix(body, name + "=")
    ensures IndexOf(body, '=') == |name| < |body| && body[..|name|] == name
  {
    var rest := body[|name| + 1..];
    IndexOfSeparator(name, '=', rest);
    assert body == name + ['='] + rest;
  }

  lemma AssignmentPrefix(body: string, i: nat)
    requires i < |body| && body[i] == '='
    ensures body[..i] + "=" <= body
  {
    assert body[..i] + "=" == body[..i + 1];
  }

  lemma TokenAssigns(body: string, name: string)
    requires '=' !in name
    ensures HasPrefix(body, name + "=") <==> body[..IndexOf(body, '=')] == name && IndexOf(body, '=') < |body|
  {
    var i := IndexOf(body, '=');
    if HasPrefix(body, name + "=") {
      AssignmentIndex(body, name);
    }
    if i < |body| {
      AssignmentPrefix(body, i);
    }
  }

  /** The pre-scan and the flag parser read the same flag name from a token body. */
  lemma TokenName(body: string, name: string)
    requires '=' !in name
    ensures var i := IndexOf(body, '=');
            && (body == name <==> body[..i] == name && i == |body|)
            && (HasPrefix(body, name + "=") <==> body[..i] == name && i < |body|)
  {
    TokenIs(body, name);
    TokenAssigns(body, name);
  }

  lemma ConfigHasNoEquals()
    ensures '=' !in "config"
  {
  }

  lemma {:induction false} LastOfOnlyConfig(items: seq<Item>, value: string)
    ensures LastOr(OnlyConfig(items), "config", value) == LastOr(items, "config", value)
    decreases |items|
  {
    if items == [] {
    } else {
      var next := if items[0].name == "config" then items[0].value else value;
      LastOfOnlyConfig(items[1..], next);
      ConsOnlyConfig(items[0], items[1..]);
      assert items == [items[0]] + items[1..];
      assert [items[0]] + OnlyConfig(items[1..]) != [];
      assert ([items[0]] + OnlyConfig(items[1..]))[1..] == OnlyConfig(items[1..]);
      assert [] + OnlyConfig(items[1..]) == OnlyConfig(items[1..]);
    }
  }

  ghost predicate ConfigTable(table: Table, ok: Accepts) {
    "config" in table && !table["config"] && forall v :: ok("config", v)
  }

  lemma FoundToken(args: seq<string>, table: Table, ok: Accepts)
    requires args != [] && ParseOne(args, table, ok).Found?
    ensures var item := ParseOne(args, table, ok).item;
            && IsNamed(args[0], "config") == (item.name == "config" && !item.source.Inline?)
            && IsAssigned(args[0], "config") == (item.name == "config" && item.source.Inline?)
            && (item.source.NextArg? <==> item.name in table && !table[item.name] && !item.source.Inline?)
  {
    ConfigHasNoEquals();
    TrimmedToken(args[0]);
    TokenName(FlagBody(args[0]), "config");
  }

  lemma FoundRest(args: seq<string>, table: Table, ok: Accepts)
    requires args != [] && ParseOne(args, table, ok).Found?
    ensures var f := ParseOne(args, table, ok);
            if f.item.source.NextArg? then |args| >= 2 && f.item.value == args[1] && f.rest == args[2..]
            else f.rest == args[1..]
  {
  }

  /** A config token means the same to the pre-scan's flag set, whatever follows its value. */
  lemma SameForPreScan(args: seq<string>, kept: seq<string>, table: Table, ok: Accepts)
    requires args != [] && kept != [] && kept[0] == args[0] && ConfigTable(table, ok)
    requires ParseOne(args, table, ok).Found? && ParseOne(args, table, ok).item.name == "config"
    requires ParseOne(args, table, ok).item.source.NextArg? ==> |kept| >= 2 && kept[1] == args[1]
    ensures ParseOne(kept, PreTable(), ok).Found?
    ensures ParseOne(kept, PreTable(), ok).item == ParseOne(args, table, ok).item
  {
  }

  lemma UnmistakableTail(p: Parsed, q: Parsed, item: Item)
    requires p == Parsed([item] + q.items, q.rest, q.end)
    ensures Unmistakable(p) <==>
            && Unmistakable(q) && Clear(item)
            && !(q.items == [] && q.end.AtWord? && Swallows(item, q.rest))
  {
    assert p.items[0] == item;
    assert forall i :: 0 <= i < |q.items| ==> q.items[i] == p.items[i + 1];
  }

  lemma ConsOnlyConfig(item: Item, items: seq<Item>)
    ensures OnlyConfig([item] + items) == (if item.name == "config" then [item] else []) + OnlyConfig(items)
  {
    assert ([item] + items)[1..] == items;
  }

  /** What the pre-scan should keep of an item. */
  function KeptOf(token: string, item: Item): seq<string> {
    if item.name != "config" then []
    else if item.source.NextArg? then [token, item.value]
    else [token]
  }

  /** A value that reads as the flag is kept as if it were one. */
  lemma StripDashValue(token: string, v: string, rest: seq<string>)
    requires IsNamed(token, "config") && HasPrefix(v, "-") && ReadsAsConfig(v)
    requires !(IsNamed(v, "config") && PlainLed(rest))
    ensures Strip([token, v] + rest, "config") == [token, v] + Strip(rest, "config")
  {
    var args, tail := [token, v] + rest, [v] + rest;
    assert args[1..] == tail && tail[1..] == rest && args[1] == v;
    assert |tail| > 1 ==> tail[1] == rest[0];
    assert Strip(tail, "config") == [v] + Strip(rest, "config");
    assert [token] + ([v] + Strip(rest, "config")) == [token, v] + Strip(rest, "config");
  }

  lemma StripFound(args: seq<string>, table: Table, ok: Accepts)
    requires args != [] && ConfigTable(table, ok) && ParseOne(args, table, ok).Found?
    requires var f := ParseOne(args, table, ok); Clear(f.item) && !Swallows(f.item, f.rest)
    ensures var f := ParseOne(args, table, ok);
            Strip(args, "config") == KeptOf(args[0], f.item) + Strip(f.rest, "config")
  {
    FoundToken(args, table, ok);
    FoundRest(args, table, ok);
    var f := ParseOne(args, table, ok);
    if f.item.source.NextArg? {
      assert args == [args[0], args[1]] + args[2..];
      if f.item.name != "config" {
        assert args[1..][0] == args[1] && args[1..][1..] == args[2..];
      } else if HasPrefix(f.item.value, "-") {
        StripDashValue(args[0], args[1], args[2..]);
      }
    }
  }

  /** A mistaken value makes the pre-scan keep more than the item asks for. */
  lemma StripExtra(args: seq<string>, table: Table, ok: Accepts)
    requires args != [] && ConfigTable(table, ok) && ParseOne(args, table, ok).Found?
    requires var f := ParseOne(args, table, ok);
             && (f.item.name == "config" ==> Clear(f.item))
             && (Clear(f.item) ==> Swallows(f.item, f.rest))
    ensures var f := ParseOne(args, table, ok);
            |Strip(args, "config")| > |KeptOf(args[0], f.item)|
            + (if PlainLed(f.rest) then 0 else |Strip(f.rest, "config")|)
  {
    FoundToken(args, table, ok);
    FoundRest(args, table, ok);
    assert args[1..][0] == args[1] && args[1..][1..] == args[2..];
    assert |args[1..]| > 1 ==> args[1..][1] == args[2];
  }

  lemma PlainLedStops(words: seq<string>, table: Table, ok: Accepts)
    requires PlainLed(words)
    ensures Parse(words, table, ok) == Parsed([], words, AtWord)
  {
    assert HasPrefix(words[0], "-") <==> words[0] != "" && words[0][0] == '-';
  }

  lemma StripStopped(args: seq<string>, table: Table, ok: Accepts)
    requires args != [] && ParseOne(args, table, ok).Stop?
    ensures Strip(args, "config") == Strip(ParseOne(args, table, ok).rest, "config")
  {
    if args[0] == "--" {
      assert "--"[1..][1..] == "";
      assert TrimDashes("--"[1..]) == "";
      assert TrimDashes(args[0]) == "";
    }
  }

  lemma {:induction false} ParseOfStrip(args: seq<string>, table: Table, ok: Accepts)
    requires ConfigTable(table, ok)
    requires !Parse(args, table, ok).end.Failed? && Unmistakable(Parse(args, table, ok))
    ensures Parse(Strip(args, "config"), PreTable(), ok) ==
            Parsed(OnlyConfig(Parse(args, table, ok).items), [], AtEnd)
    decreases |args|
  {
    if args == [] {
    } else {
      var p, f := Parse(args, table, ok), ParseOne(args, table, ok);
      if f.Stop? {
        StripNothing(f.rest);
        StripStopped(args, table, ok);
      } else {
        var q := Parse(f.rest, table, ok);
        UnmistakableTail(p, q, f.item);
        ParseOfStrip(f.rest, table, ok);
        if PlainLed(f.rest) {
          PlainLedStops(f.rest, table, ok);
        }
        StripFound(args, table, ok);
        ConsOnlyConfig(f.item, q.items);
        ParseKept(args, table, ok, Strip(f.rest, "config"));
      }
    }
  }

  lemma ParseKept(args: seq<string>, table: Table, ok: Accepts, more: seq<string>)
    requires args != [] && ConfigTable(table, ok) && ParseOne(args, table, ok).Found?
    ensures var f := ParseOne(args, table, ok); var q := Parse(more, PreTable(), ok);
            Parse(KeptOf(args[0], f.item) + more, PreTable(), ok) ==
            Parsed((if f.item.name == "config" then [f.item] else []) + q.items, q.rest, q.end)
  {
    var f := ParseOne(args, table, ok);
    var kept := KeptOf(args[0], f.item) + more;
    if f.item.name == "config" {
      FoundToken(args, table, ok);
      FoundRest(args, table, ok);
      SameForPreScan(args, kept, table, ok);
      FoundRest(kept, PreTable(), ok);
    } else {
      assert kept == more;
      assert [] + Parse(more, PreTable(), ok).items == Parse(more, PreTable(), ok).items;
    }
  }

  // ----- and only then -----

  /** How many words the items take. */
  function Weight(items: seq<Item>): nat {
    if items == [] then 0 else (if items[0].source.NextArg? then 2 else 1) + Weight(items[1..])
  }

  lemma ConsWeight(item: Item, items: seq<Item>)
    ensures Weight([item] + items) == (if item.source.NextArg? then 2 else 1) + Weight(items)
  {
    assert ([item] + items)[1..] == items;
  }

  lemma {:induction false} AllConsumed(args: seq<string>, table: Table, ok: Accepts)
    requires Parse(args, table, ok).end.AtEnd?
    ensures |args| == Weight(Parse(args, table, ok).items)
    decreases |args|
  {
    if args == [] {
    } else {
      var f := ParseOne(args, table, ok);
      FoundRest(args, table, ok);
      AllConsumed(f.rest, table, ok);
      ConsWeight(f.item, Parse(f.rest, table, ok).items);
    }
  }

  lemma {:induction false} ValuesAreWords(args: seq<string>, table: Table, ok: Accepts, item: Item)
    requires item in Parse(args, table, ok).items && item.source.NextArg?
    ensures item.value in args
    decreases |args|
  {
    var f := ParseOne(args, table, ok);
    FoundRest(args, table, ok);
    if item != f.item {
      ValuesAreWords(f.rest, table, ok, item);
    }
  }

  lemma {:induction false} KeptWords(args: seq<string>)
    ensures forall a :: a in Strip(args, "config") ==> ReadsAsConfig(a) || !HasPrefix(a, "-")
    decreases |args|
  {
    if args == [] {
    } else {
      KeptWords(args[1..]);
      if |args| > 1 {
        KeptWords(args[2..]);
      }
    }
  }

  lemma {:induction false} InOnlyConfig(items: seq<Item>, item: Item)
    ensures item in OnlyConfig(items) <==> item in items && item.name == "config"
  {
    if items == [] {
    } else {
      InOnlyConfig(items[1..], item);
      assert items == [items[0]] + items[1..];
    }
  }

  ghost predicate ConfigValuesClear(items: seq<Item>) {
    forall item :: item in items && item.name == "config" ==> Clear(item)
  }

  /** The pre-scan keeps at least the words of the assignments, and more if anything can be mistaken. */
  lemma {:induction false} StripSize(args: seq<string>, table: Table, ok: Accepts)
    requires ConfigTable(table, ok) && !Parse(args, table, ok).end.Failed?
    requires ConfigValuesClear(Parse(args, table, ok).items)
    ensures var p := Parse(args, table, ok);
            && |Strip(args, "config")| >= Weight(OnlyConfig(p.items))
            && (|Strip(args, "config")| == Weight(OnlyConfig(p.items)) ==> Unmistakable(p))
    decreases |args|
  {
    if args == [] {
    } else {
      var p, f := Parse(args, table, ok), ParseOne(args, table, ok);
      if f.Stop? {
        StripNothing(f.rest);
        StripStopped(args, table, ok);
      } else {
        var q := Parse(f.rest, table, ok);
        assert p.items[0] == f.item && forall item :: item in q.items ==> item in p.items;
        StripSize(f.rest, table, ok);
        StripStep(args, table, ok, q);
        UnmistakableTail(p, q, f.item);
      }
    }
  }

  lemma StripStep(args: seq<string>, table: Table, ok: Accepts, q: Parsed)
    requires args != [] && ConfigTable(table, ok) && ParseOne(args, table, ok).Found?
    requires var f := ParseOne(args, table, ok);
             q == Parse(f.rest, table, ok) && (f.item.name == "config" ==> Clear(f.item))
    requires |Strip(ParseOne(args, table, ok).rest, "config")| >= Weight(OnlyConfig(q.items))
    ensures var f := ParseOne(args, table, ok);
            var size, least := |Strip(args, "config")|, Weight(OnlyConfig([f.item] + q.items));
            && size >= least
            && (size == least ==>
                  && Clear(f.item) && !(q.items == [] && q.end.AtWord? && Swallows(f.item, q.rest))
                  && |Strip(f.rest, "config")| == Weight(OnlyConfig(q.items)))
  {
    var f := ParseOne(args, table, ok);
    ConsOnlyConfig(f.item, q.items);
    KeptWeight(args, table, ok, OnlyConfig(q.items));
    if PlainLed(f.rest) {
      PlainLedStops(f.rest, table, ok);
    }
    if Clear(f.item) && !Swallows(f.item, f.rest) {
      StripFound(args, table, ok);
      SwallowsAtRest(f, q, table, ok);
    } else {
      StripExtra(args, table, ok);
    }
  }

  lemma KeptWeight(args: seq<string>, table: Table, ok: Accepts, items: seq<Item>)
    requires args != [] && ConfigTable(table, ok) && ParseOne(args, table, ok).Found?
    ensures var f := ParseOne(args, table, ok);
            Weight((if f.item.name == "config" then [f.item] else []) + items) ==
            |KeptOf(args[0], f.item)| + Weight(items)
  {
    var f := ParseOne(args, table, ok);
    ConsWeight(f.item, items);
    assert [] + items == items;
  }

  /** A parse that takes no items and stops at a word has that word first. */
  lemma SwallowsAtRest(f: One, q: Parsed, table: Table, ok: Accepts)
    requires f.Found? && q == Parse(f.rest, table, ok) && !Swallows(f.item, f.rest)
    ensures !(q.items == [] && q.end.AtWord? && Swallows(f.item, q.rest))
  {
  }

  /**
   On every command line the full parse accepts, the pre-scan's parse takes every word it kept and
   finds exactly the assignments of `--config`, if and only if no word can be mistaken.
   */
  lemma PreScanReadsConfigIff(args: seq<string>, table: Table, ok: Accepts)
    requires ConfigTable(table, ok) && !Parse(args, table, ok).end.Failed?
    ensures Parse(Strip(args, "config"), PreTable(), ok) ==
            Parsed(OnlyConfig(Parse(args, table, ok).items), [], AtEnd)
            <==> Unmistakable(Parse(args, table, ok))
  {
    var p, kept := Parse(args, table, ok), Strip(args, "config");
    var pre := Parse(kept, PreTable(), ok);
    if Unmistakable(p) {
      ParseOfStrip(args, table, ok);
    } else if pre == Parsed(OnlyConfig(p.items), [], AtEnd) {
      KeptWords(args);
      forall item | item in p.items && item.name == "config" ensures Clear(item) {
        InOnlyConfig(p.items, item);
        if item.source.NextArg? {
          ValuesAreWords(kept, PreTable(), ok, item);
        }
      }
      AllConsumed(kept, PreTable(), ok);
      StripSize(args, table, ok);
    }
  }

  /** The path of the configuration file: the pre-scanned flag if it is not empty, else the environment. */
  function ConfigPath(env: string, args: seq<string>, ok: Accepts): string {
    if PreScan(args, ok) != "" then PreScan(args, ok) else env
  }

  /**
   On every command line that the full parse accepts and whose other words cannot be mistaken for
   the flag, the pre-scan finds the very value the full parse assigns, the last one winning.
   */
  lemma PreScanAgrees(args: seq<string>, table: Table, ok: Accepts, env: string)
    requires ConfigTable(table, ok)
    requires !Parse(args, table, ok).end.Failed? && Unmistakable(Parse(args, table, ok))
    ensures var value := ValueOf(Parse(args, table, ok).items, "config");
            PreScan(args, ok) == value && ConfigPath(env, args, ok) == if value != "" then value else env
  {
    ParseOfStrip(args, table, ok);
    LastOfOnlyConfig(Parse(args, table, ok).items, "");
  }

  // ----- where the two readings part -----

  lemma ConfigToken(table: Table, ok: Accepts, v: string, more: seq<string>)
    requires ConfigTable(table, ok)
    ensures IsNamed("--config", "config")
    ensures ParseOne(["--config", v] + more, table, ok) == Found(Item("config", v, NextArg), more)
  {
    var s, args := "--config", ["--config", v] + more;
    assert FlagBody(s) == "config";
    TrimmedToken(s);
    ConfigHasNoEquals();
    TokenName("config", "config");
    assert args[2..] == more;
  }

  lemma OneItem(item: Item)
    ensures ValueOf([item], item.name) == item.value
  {
    assert [item][1..] == [];
    assert LastOr([item][1..], item.name, item.value) == item.value;
  }

  lemma ParsedPair(table: Table, ok: Accepts, v: string)
    requires ConfigTable(table, ok)
    ensures Parse(["--config", v], table, ok) == Parsed([Item("config", v, NextArg)], [], AtEnd)
    ensures ValueOf(Parse(["--config", v], table, ok).items, "config") == v
  {
    var item := Item("config", v, NextArg);
    ConfigToken(table, ok, v, []);
    assert ["--config", v] + [] == ["--config", v];
    assert Parse([], table, ok) == Parsed([], [], AtEnd);
    assert [item] + [] == [item];
    OneItem(item);
  }

  /** A separate value that starts with a dash is lost to the pre-scan, unless it too reads as the flag. */
  lemma DashValueLost(table: Table, ok: Accepts, v: string)
    requires ConfigTable(table, ok)
    ensures PreScan(["--config", v], ok) == ValueOf(Parse(["--config", v], table, ok).items, "config")
            <==> !HasPrefix(v, "-") || ReadsAsConfig(v)
  {
    ParsedPair(table, ok, v);
    ParsedPair(PreTable(), ok, v);
    LoneFlag(ok);
    StripPair(v);
  }

  lemma StripPair(v: string)
    ensures Strip(["--config", v], "config") ==
            if !HasPrefix(v, "-") || ReadsAsConfig(v) then ["--config", v] else ["--config"]
  {
    var s, args := "--config", ["--config", v];
    assert FlagBody(s) == "config";
    TrimmedToken(s);
    assert args[1..] == [v] && args[2..] == [] && [v][1..] == [];
    assert Strip([], "config") == [] && args + [] == args && [s] + [] == [s];
    if HasPrefix(v, "-") {
      assert Strip([v], "config") == (if ReadsAsConfig(v) then [v] else []) + [];
      assert [s] + ([v] + []) == args;
    }
  }

  lemma LoneFlag(ok: Accepts)
    ensures Parse(["--config"], PreTable(), ok) == Parsed([], [], Failed)
  {
    var s := "--config";
    assert FlagBody(s) == "config";
    ConfigHasNoEquals();
    TokenName("config", "config");
  }

  /** The value `config` of another flag stops the pre-scan: a later `--config` is not found. */
  lemma OtherValueHidesConfig(table: Table, ok: Accepts, x: string)
    requires ConfigTable(table, ok) && "addr" in table && !table["addr"] && ok("addr", "config")
    requires !HasPrefix(x, "-")
    ensures var args := ["--addr", "config"] + ["--config", x];
            !Parse(args, table, ok).end.Failed? && ValueOf(Parse(args, table, ok).items, "config") == x
            && PreScan(args, ok) == ""
  {
    var pair := ["--config", x];
    ParsedPair(table, ok, x);
    AddrToken(table, ok, pair);
    var item, c := Item("addr", "config", NextArg), Item("config", x, NextArg);
    assert Parse(["--addr", "config"] + pair, table, ok).items == [item] + [c];
    assert ([item] + [c])[1] == c;
    HiddenFlag(pair);
    var kept := ["config"] + Strip(pair, "config");
    assert kept[0] == "config" && kept[0][0] == 'c';
    assert ParseOne(kept, PreTable(), ok) == Stop(kept, AtWord);
  }

  /** The pre-scan takes the other flag's value for the flag, and keeps it first. */
  lemma HiddenFlag(pair: seq<string>)
    requires pair != [] && HasPrefix(pair[0], "-")
    ensures Strip(["--addr", "config"] + pair, "config") == ["config"] + Strip(pair, "config")
  {
    var args, tail := ["--addr", "config"] + pair, ["config"] + pair;
    var s := "--addr";
    assert FlagBody(s) == "addr";
    TrimmedToken(s);
    assert "addr"[0] == 'a' && "config"[0] == 'c' && ("config" + "=")[0] == 'c';
    assert args[1..] == tail && tail[1..] == pair && tail[1] == pair[0];
    assert TrimDashes("config") == "config";
  }

  lemma AddrToken(table: Table, ok: Accepts, more: seq<string>)
    requires "addr" in table && !table["addr"] && ok("addr", "config")
    ensures ParseOne(["--addr", "config"] + more, table, ok) == Found(Item("addr", "config", NextArg), more)
    ensures !ReadsAsConfig("--addr")
  {
    var s, args := "--addr", ["--addr", "config"] + more;
    assert FlagBody(s) == "addr";
    TrimmedToken(s);
    assert "addr"[0] == 'a' && "config"[0] == 'c' && ("config" + "=")[0] == 'c';
    IndexOfNone("addr", '=');
    assert "addr"[..4] == "addr";
    assert args[2..] == more;
  }

  /** The full parse stops at the first plain word, the pre-scan does not. */
  lemma PlainWordDoesNotStopPreScan(table: Table, ok: Accepts, x: string)
    requires ConfigTable(table, ok) && !HasPrefix(x, "-")
    ensures var args := ["run"] + ["--config", x];
            Parse(args, table, ok) == Parsed([], args, AtWord) && PreScan(args, ok) == x
  {
    var pair, args := ["--config", x], ["run"] + ["--config", x];
    assert args[0] == "run" && args[0][0] == 'r' && args[1..] == pair;
    assert TrimDashes("run") == "run" && "config"[0] == 'c' && ("config" + "=")[0] == 'c';
    ParsedPair(PreTable(), ok, x);
    ConfigToken(table, ok, x, []);
    assert pair[2..] == [] && Strip([], "config") == [] && pair + [] == pair;
    assert Strip(pair, "config") == pair;
  }

  // ----- lists of paths -----

  const LIST_SEPARATOR: char := ':'

  function Separator(v: string): char {
    if LIST_SEPARATOR in v then LIST_SEPARATOR else ','
  }

  function TrimmedParts(parts: seq<string>): seq<string> {
    if parts == [] then []
    else
      var p := Trim(GoBlanks, parts[0]);
      (if p == "" then [] else [p]) + TrimmedParts(parts[1..])
  }

  function ListOf(v: string): seq<string> {
    TrimmedParts(Split(v, Separator(v)))
  }

  method SplitList(v: string) returns (out: seq<string>)
    ensures out == ListOf(v)
  {
    var sep := ',';
    if LIST_SEPARATOR in v {
      sep := LIST_SEPARATOR;
    }
    var parts := Split(v, sep);
    out := [];
    ghost var all := TrimmedParts(parts);
    assert parts[0..] == parts && [] + all == all;
    for i := 0 to |parts|
      invariant out + TrimmedParts(parts[i..]) == all
    {
      assert parts[i..][0] == parts[i] && parts[i..][1..] == parts[i + 1..];
      var p := Trim(GoBlanks, parts[i]);
      Assoc(out, [p], TrimmedParts(parts[i + 1..]));
      assert [] + TrimmedParts(parts[i + 1..]) == TrimmedParts(parts[i + 1..]);
      if p != "" {
        out := out + [p];
      }
    }
    assert parts[|parts|..] == [] && out + [] == out;
  }

  ghost predicate CleanItems(items: seq<string>, sep: char) {
    forall i :: 0 <= i < |items| ==> IsTrimmed(GoBlanks, items[i]) && items[i] != "" && sep !in items[i]
  }

  lemma TrimFree(s: string, sep: char)
    requires sep !in s
    ensures IsTrimmed(GoBlanks, Trim(GoBlanks, s)) && sep !in Trim(GoBlanks, s)
  {
    var a, b := TrimSpec(GoBlanks, s);
    var t := Trim(GoBlanks, s);
    assert forall k :: 0 <= k < |t| ==> t[k] == s[|a| + k] && s[|a| + k] in s;
  }

  lemma {:induction false} TrimmedPartsClean(parts: seq<string>, sep: char)
    requires AllFree(parts, sep)
    ensures CleanItems(TrimmedParts(parts), sep)
  {
    if parts == [] {
    } else {
      TrimmedPartsClean(parts[1..], sep);
      TrimFree(parts[0], sep);
    }
  }

  /** Whatever the text, every item is trimmed, non-empty and free of the separator used. */
  lemma ItemsClean(v: string)
    ensures CleanItems(ListOf(v), Separator(v))
  {
    JoinOfSplit(v, Separator(v));
    TrimmedPartsClean(Split(v, Separator(v)), Separator(v));
  }

  lemma {:induction false} TrimmedPartsFixed(items: seq<string>, sep: char)
    requires CleanItems(items, sep)
    ensures TrimmedParts(items) == items
  {
    if items == [] {
    } else {
      TrimmedPartsFixed(items[1..], sep);
      TrimFixed(GoBlanks, items[0]);
    }
  }

  lemma {:induction false} JoinHasSeparator(items: seq<string>, sep: char)
    ensures |items| >= 2 ==> sep in Join(items, sep)
    ensures CleanItems(items, sep) && |items| < 2 ==> sep !in Join(items, sep)
  {
    if |items| >= 2 {
      assert Join(items, sep)[|items[0]|] == sep;
    }
  }

  /**
   A joined list is split back into itself exactly when its items are trimmed, non-empty and free
   of the separator, and a single item has no comma either.
   */
  lemma SplitOfJoinedList(items: seq<string>)
    ensures ListOf(Join(items, LIST_SEPARATOR)) == items <==>
            CleanItems(items, LIST_SEPARATOR) && (|items| == 1 ==> ',' !in items[0])
  {
    var v := Join(items, LIST_SEPARATOR);
    JoinHasSeparator(items, LIST_SEPARATOR);
    ItemsClean(v);
    if items == [] {
      SplitSingle("", ',');
      assert [""][1..] == [] && TrimmedParts([""]) == [];
    } else if CleanItems(items, LIST_SEPARATOR) && (|items| == 1 ==> ',' !in items[0]) {
      if |items| == 1 {
        SplitSingle(v, ',');
        assert items == [items[0]];
      } else {
        SplitOfJoin(items, LIST_SEPARATOR);
      }
      TrimmedPartsFixed(items, LIST_SEPARATOR);
    }
  }

  // ----- what a list keeps -----

  /** `t` is `p` without the blanks at its ends. */
  ghost predicate Strips(p: string, t: string) {
    exists a, b :: Blanked(p, a, t, b)
  }

  ghost predicate Blanked(p: string, a: string, t: string, b: string) {
    p == a + t + b && AllBlank(GoBlanks, a) && AllBlank(GoBlanks, b) && IsTrimmed(GoBlanks, t)
  }

  /** The positions `at` are those of the parts that are not all blank, and the items are those parts, stripped. */
  ghost predicate KeptFrom(parts: seq<string>, items: seq<string>, at: seq<nat>) {
    && |at| == |items|
    && (forall k :: 0 <= k < |at| ==> at[k] < |parts| && Strips(parts[at[k]], items[k]))
    && (forall k, l :: 0 <= k < l < |at| ==> at[k] < at[l])
    && (forall i :: 0 <= i < |parts| ==> (i in at <==> !AllBlank(GoBlanks, parts[i])))
  }

  lemma TrimStrips(p: string)
    ensures Strips(p, Trim(GoBlanks, p)) && (Trim(GoBlanks, p) == "" <==> AllBlank(GoBlanks, p))
  {
    var a, b := TrimSpec(GoBlanks, p);
    assert Blanked(p, a, Trim(GoBlanks, p), b);
    if AllBlank(GoBlanks, p) {
      assert p == p + "" + "";
      TrimUnique(GoBlanks, p, "", "");
    }
  }

  lemma {:induction false} PartsKept(parts: seq<string>) returns (at: seq<nat>)
    ensures KeptFrom(parts, TrimmedParts(parts), at)
  {
    if parts == [] {
      at := [];
    } else {
      var more := PartsKept(parts[1..]);
      TrimStrips(parts[0]);
      at := Shifted(parts, TrimmedParts(parts[1..]), more);
    }
  }

  /** The same for the parts behind the first, counted from it. */
  ghost predicate KeptLater(parts: seq<string>, items: seq<string>, at: seq<nat>) {
    && |at| == |items|
    && (forall k :: 0 <= k < |at| ==> 0 < at[k] < |parts| && Strips(parts[at[k]], items[k]))
    && (forall k, l :: 0 <= k < l < |at| ==> at[k] < at[l])
    && (forall i :: 0 < i < |parts| ==> (i in at <==> !AllBlank(GoBlanks, parts[i])))
  }

  function Later(at: seq<nat>): seq<nat> {
    seq(|at|, k requires 0 <= k < |at| => at[k] + 1)
  }

  lemma InLater(at: seq<nat>, i: nat)
    requires i > 0
    ensures i in Later(at) <==> i - 1 in at
  {
    if i - 1 in at {
      var k :| 0 <= k < |at| && at[k] == i - 1;
      assert Later(at)[k] == i;
    }
  }

  lemma CountedOn(parts: seq<string>, items: seq<string>, more: seq<nat>)
    requires parts != [] && KeptFrom(parts[1..], items, more)
    ensures KeptLater(parts, items, Later(more))
  {
    var at := Later(more);
    forall k | 0 <= k < |at|
      ensures 0 < at[k] < |parts| && Strips(parts[at[k]], items[k])
    {
      assert at[k] == more[k] + 1 && parts[at[k]] == parts[1..][more[k]];
    }
    forall i | 0 < i < |parts|
      ensures i in at <==> !AllBlank(GoBlanks, parts[i])
    {
      InLater(more, i);
      assert parts[i] == parts[1..][i - 1];
    }
  }

  lemma FirstKept(parts: seq<string>, t: string, items: seq<string>, later: seq<nat>)
    requires parts != [] && KeptLater(parts, items, later) && !AllBlank(GoBlanks, parts[0]) && Strips(parts[0], t)
    ensures KeptFrom(parts, [t] + items, [0] + later)
  {
    var at, all := [0] + later, [t] + items;
    forall k | 0 <= k < |at|
      ensures at[k] < |parts| && Strips(parts[at[k]], all[k])
    {
      if k > 0 {
        assert at[k] == later[k - 1] && all[k] == items[k - 1];
      }
    }
    assert forall k :: 0 < k < |at| ==> at[k] == later[k - 1];
    InExtended(later);
  }

  lemma InExtended(later: seq<nat>)
    ensures forall i :: i in [0] + later <==> i == 0 || i in later
  {
  }

  lemma FirstDropped(parts: seq<string>, items: seq<string>, later: seq<nat>)
    requires parts != [] && KeptLater(parts, items, later) && AllBlank(GoBlanks, parts[0])
    ensures KeptFrom(parts, items, later)
  {
  }

  lemma Shifted(parts: seq<string>, items: seq<string>, more: seq<nat>) returns (at: seq<nat>)
    requires parts != [] && KeptFrom(parts[1..], items, more) && Strips(parts[0], Trim(GoBlanks, parts[0]))
    requires Trim(GoBlanks, parts[0]) == "" <==> AllBlank(GoBlanks, parts[0])
    ensures var t := Trim(GoBlanks, parts[0]); KeptFrom(parts, (if t == "" then [] else [t]) + items, at)
  {
    at := Later(more);
    CountedOn(parts, items, more);
    if AllBlank(GoBlanks, parts[0]) {
      FirstDropped(parts, items, at);
      assert [] + items == items;
    } else {
      FirstKept(parts, Trim(GoBlanks, parts[0]), items, at);
      at := [0] + at;
    }
  }

  /**
   Every piece with something in it becomes an item, in order and without its blanks, and nothing
   else does: the pieces between colons if there is a colon, else between commas.
   */
  lemma ItemsArePieces(v: string) returns (at: seq<nat>)
    ensures KeptFrom(Split(v, if ':' in v then ':' else ','), ListOf(v), at)
  {
    at := PartsKept(Split(v, Separator(v)));
  }
}
