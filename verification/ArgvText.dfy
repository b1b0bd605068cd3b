/**
 The command line word by word, written out with the program's own flag names: what the tables of
 flags, arities and values come down to.
 */
module ArgvText {
  import opened Text
  import opened Argv

  // ----- the words -----

  /** A flag with its value, or nothing when there is no value. */
  function Valued(name: string, v: string): seq<string> {
    if v == "" then [] else [name, v]
  }

  function Switched(name: string, on: bool): seq<string> {
    if on then [name] else []
  }

  function Repeated(name: string, vs: seq<string>): seq<string> {
    if vs == [] then [] else [name, vs[0]] + Repeated(name, vs[1..])
  }

  function Format(r: RunRequest): string {
    if r.stream then "stream-json" else if r.outputFormat == "" then "json" else r.outputFormat
  }

  function HeadWords(x: Input): seq<string> {
    ["-p", x.r.prompt] + ["--output-format", Format(x.r)] + Switched("--verbose", Format(x.r) == "stream-json")
    + Valued("--model", if x.r.model == "" then x.defaultModel else x.r.model)
    + Valued("--fallback-model", x.r.fallbackModel)
  }

  function SessionWords(x: Input): seq<string> {
    (if x.r.resume != "" then ["--resume", x.r.resume]
     else if x.r.continue_ then ["--continue"]
     else ["--session-id", if x.r.sessionId == "" then x.newId else x.r.sessionId])
    + Switched("--fork-session", x.r.fork)
  }

  function LimitWords(r: RunRequest): seq<string> {
    Valued("--add-dir", r.workdir) + Valued("--permission-mode", r.permissionMode) + Valued("--tools", r.tools)
  }

  function CapWords(r: RunRequest): seq<string> {
    Valued("--max-turns", if r.maxTurns > 0 then Itoa(r.maxTurns) else "")
    + (if r.maxBudget.Positive? then ["--max-budget-usd", r.maxBudget.text] else [])
  }

  function PromptWords(r: RunRequest): seq<string> {
    Valued("--system-prompt", r.systemPrompt) + Valued("--append-system-prompt", r.appendSystemPrompt)
  }

  function JsonWords(r: RunRequest): seq<string> {
    Valued("--mcp-config", r.mcpConfig.GetOr("")) + Switched("--strict-mcp-config", r.strictMcpConfig)
  }

  function SchemaWords(r: RunRequest): seq<string> {
    Valued("--agents", r.agents.GetOr("")) + Valued("--json-schema", r.jsonSchema.GetOr(""))
  }

  function SettingWords(r: RunRequest): seq<string> {
    Switched("--bare", r.bare) + Valued("--effort", r.effort) + Valued("--setting-sources", r.settingSources)
  }

  function PluginWords(r: RunRequest): seq<string> {
    Repeated("--plugin-dir", r.pluginDirs) + Repeated("--plugin-url", r.pluginUrls)
  }

  function Words(x: Input): seq<string> {
    HeadWords(x) + SessionWords(x) + LimitWords(x.r) + CapWords(x.r) + PromptWords(x.r) + JsonWords(x.r)
    + SchemaWords(x.r) + SettingWords(x.r) + PluginWords(x.r)
  }

  // ----- they are what is shown -----

  lemma ShownConcat(a: seq<Flag>, b: seq<Flag>, x: Input)
    ensures Shown(a + b, x) == Shown(a, x) + Shown(b, x)
  {
    EmitConcat(a, b, x);
    ShowConcat(Emit(a, x), Emit(b, x));
  }

  lemma ShownFlag(f: Flag, x: Input)
    ensures Shown([f], x) == ShowAll(Each(f, Values(f, x)))
  {
    assert [] + [f] == [f];
    NextFlag([], f, x);
    assert [] + ShowAll(Each(f, Values(f, x))) == ShowAll(Each(f, Values(f, x)));
  }

  lemma ShownValue(f: Flag, v: string, x: Input)
    requires TakesValue(f) && Values(f, x) == OneOrNone(v)
    ensures Shown([f], x) == Valued(Spelling(f), v)
  {
    ShownFlag(f, x);
    ShowOne(f, v);
  }

  lemma ShownAlways(f: Flag, v: string, x: Input)
    requires TakesValue(f) && Values(f, x) == [v]
    ensures Shown([f], x) == [Spelling(f), v]
  {
    ShownFlag(f, x);
    ShowOne(f, v);
  }

  lemma ShownSwitch(f: Flag, on: bool, x: Input)
    requires !TakesValue(f) && Values(f, x) == Switch(on)
    ensures Shown([f], x) == Switched(Spelling(f), on)
  {
    ShownFlag(f, x);
    ShowOne(f, "");
  }

  lemma {:induction false} ShownEach(f: Flag, vs: seq<string>)
    requires TakesValue(f)
    ensures ShowAll(Each(f, vs)) == Repeated(Spelling(f), vs)
  {
    if vs == [] {
    } else {
      EachTail(f, vs);
      ShownEach(f, vs[1..]);
    }
  }

  lemma ShownList(f: Flag, vs: seq<string>, x: Input)
    requires TakesValue(f) && Values(f, x) == vs
    ensures Shown([f], x) == Repeated(Spelling(f), vs)
  {
    ShownFlag(f, x);
    ShownEach(f, vs);
  }

  lemma ShownPair(f: Flag, g: Flag, x: Input)
    ensures Shown([f, g], x) == Shown([f], x) + Shown([g], x)
  {
    assert [f, g] == [f] + [g];
    ShownConcat([f], [g], x);
  }

  lemma ShownThree(f: Flag, g: Flag, h: Flag, x: Input)
    ensures Shown([f, g, h], x) == Shown([f], x) + Shown([g], x) + Shown([h], x)
  {
    assert [f, g, h] == [f, g] + [h];
    ShownConcat([f, g], [h], x);
    ShownPair(f, g, x);
  }

  lemma FormatShown(x: Input)
    ensures Shown([P, OutputFormat, Verbose], x) ==
            ["-p", x.r.prompt] + ["--output-format", Format(x.r)]
            + Switched("--verbose", Format(x.r) == "stream-json")
  {
    ShownThree(P, OutputFormat, Verbose, x);
    ShownAlways(P, x.r.prompt, x);
    ShownAlways(OutputFormat, Format(x.r), x);
    ShownSwitch(Verbose, Format(x.r) == "stream-json", x);
  }

  lemma ModelsShown(x: Input)
    ensures Shown([Model, FallbackModel], x) ==
            Valued("--model", if x.r.model == "" then x.defaultModel else x.r.model)
            + Valued("--fallback-model", x.r.fallbackModel)
  {
    ShownPair(Model, FallbackModel, x);
    ShownValue(Model, if x.r.model == "" then x.defaultModel else x.r.model, x);
    ShownValue(FallbackModel, x.r.fallbackModel, x);
  }

  lemma HeadShown(x: Input)
    ensures Shown(HeadFlags(), x) == HeadWords(x)
  {
    assert HeadFlags() == [P, OutputFormat, Verbose] + [Model, FallbackModel];
    ShownConcat([P, OutputFormat, Verbose], [Model, FallbackModel], x);
    FormatShown(x);
    ModelsShown(x);
    Assoc(["-p", x.r.prompt] + ["--output-format", Format(x.r)] + Switched("--verbose", Format(x.r) == "stream-json"),
          Valued("--model", if x.r.model == "" then x.defaultModel else x.r.model),
          Valued("--fallback-model", x.r.fallbackModel));
  }

  lemma ChoiceShown(x: Input)
    requires x.newId != ""
    ensures Shown([Resume, Continue, SessionId], x) ==
            if x.r.resume != "" then ["--resume", x.r.resume]
            else if x.r.continue_ then ["--continue"]
            else ["--session-id", if x.r.sessionId == "" then x.newId else x.r.sessionId]
  {
    ShownThree(Resume, Continue, SessionId, x);
    ResumeShown(x);
    NamedShown(x);
    OneOfThree(Shown([Resume], x), Shown([Continue], x), Shown([SessionId], x));
  }

  lemma ResumeShown(x: Input)
    ensures Shown([Resume], x) == Valued("--resume", x.r.resume)
    ensures Shown([Continue], x) == Switched("--continue", x.r.resume == "" && x.r.continue_)
  {
    ShownValue(Resume, x.r.resume, x);
    ShownSwitch(Continue, x.r.resume == "" && x.r.continue_, x);
  }

  lemma NamedShown(x: Input)
    requires x.newId != ""
    ensures Shown([SessionId], x) ==
            if x.r.resume != "" || x.r.continue_ then []
            else ["--session-id", if x.r.sessionId == "" then x.newId else x.r.sessionId]
  {
    ShownValue(SessionId, PinnedId(x), x);
  }

  lemma OneOfThree(a: seq<string>, b: seq<string>, c: seq<string>)
    ensures b == [] && c == [] ==> a + b + c == a
    ensures a == [] && c == [] ==> a + b + c == b
    ensures a == [] && b == [] ==> a + b + c == c
  {
  }

  lemma SessionShown(x: Input)
    requires x.newId != ""
    ensures Shown(SessionFlags(), x) == SessionWords(x)
  {
    assert SessionFlags() == [Resume, Continue, SessionId] + [ForkSession];
    ShownConcat([Resume, Continue, SessionId], [ForkSession], x);
    ChoiceShown(x);
    ShownSwitch(ForkSession, x.r.fork, x);
  }

  lemma LimitsShown(x: Input)
    ensures Shown(LimitFlags(), x) == LimitWords(x.r)
  {
    ShownThree(AddDir, PermissionMode, Tools, x);
    ShownValue(AddDir, x.r.workdir, x);
    ShownValue(PermissionMode, x.r.permissionMode, x);
    ShownValue(Tools, x.r.tools, x);
  }

  lemma CapsShown(x: Input)
    ensures Shown(CapFlags(), x) == CapWords(x.r)
  {
    ShownPair(MaxTurns, MaxBudgetUsd, x);
    if x.r.maxTurns > 0 {
      AtoiOfItoa(x.r.maxTurns);
    }
    ShownValue(MaxTurns, if x.r.maxTurns > 0 then Itoa(x.r.maxTurns) else "", x);
    ShownFlag(MaxBudgetUsd, x);
    ShowOne(MaxBudgetUsd, if x.r.maxBudget.Positive? then x.r.maxBudget.text else "");
  }

  lemma PromptsShown(x: Input)
    ensures Shown(PromptFlags(), x) == PromptWords(x.r)
  {
    ShownPair(SystemPrompt, AppendSystemPrompt, x);
    ShownValue(SystemPrompt, x.r.systemPrompt, x);
    ShownValue(AppendSystemPrompt, x.r.appendSystemPrompt, x);
  }

  lemma JsonShown(x: Input)
    ensures Shown(JsonFlags(), x) == JsonWords(x.r)
  {
    ShownPair(McpConfig, StrictMcpConfig, x);
    ShownValue(McpConfig, x.r.mcpConfig.GetOr(""), x);
    ShownSwitch(StrictMcpConfig, x.r.strictMcpConfig, x);
  }

  lemma SchemasShown(x: Input)
    ensures Shown(SchemaFlags(), x) == SchemaWords(x.r)
  {
    ShownPair(Agents, JsonSchema, x);
    ShownValue(Agents, x.r.agents.GetOr(""), x);
    ShownValue(JsonSchema, x.r.jsonSchema.GetOr(""), x);
  }

  lemma SettingsShown(x: Input)
    ensures Shown(SettingFlags(), x) == SettingWords(x.r)
  {
    ShownThree(Bare, Effort, SettingSources, x);
    ShownSwitch(Bare, x.r.bare, x);
    ShownValue(Effort, x.r.effort, x);
    ShownValue(SettingSources, x.r.settingSources, x);
  }

  lemma PluginsShown(x: Input)
    ensures Shown(PluginFlags(), x) == PluginWords(x.r)
  {
    ShownPair(PluginDir, PluginUrl, x);
    ShownList(PluginDir, x.r.pluginDirs, x);
    ShownList(PluginUrl, x.r.pluginUrls, x);
  }

  lemma OrderShown(x: Input)
    ensures Shown(Order(), x) ==
            Shown(HeadFlags(), x) + Shown(SessionFlags(), x) + Shown(LimitFlags(), x) + Shown(CapFlags(), x)
            + Shown(PromptFlags(), x) + Shown(JsonFlags(), x) + Shown(SchemaFlags(), x)
            + Shown(SettingFlags(), x) + Shown(PluginFlags(), x)
  {
    var fs := HeadFlags();
    ShownConcat(fs, SessionFlags(), x);
    fs := fs + SessionFlags();
    ShownConcat(fs, LimitFlags(), x);
    fs := fs + LimitFlags();
    ShownConcat(fs, CapFlags(), x);
    fs := fs + CapFlags();
    ShownConcat(fs, PromptFlags(), x);
    fs := fs + PromptFlags();
    ShownConcat(fs, JsonFlags(), x);
    fs := fs + JsonFlags();
    ShownConcat(fs, SchemaFlags(), x);
    fs := fs + SchemaFlags();
    ShownConcat(fs, SettingFlags(), x);
    ShownConcat(fs + SettingFlags(), PluginFlags(), x);
  }

  /** The command line of every request, literally. */
  lemma AsWritten(x: Input)
    requires x.newId != ""
    ensures Shown(Order(), x) == Words(x)
  {
    OrderShown(x);
    HeadShown(x);
    SessionShown(x);
    LimitsShown(x);
    CapsShown(x);
    PromptsShown(x);
    JsonShown(x);
    SchemasShown(x);
    SettingsShown(x);
    PluginsShown(x);
  }

  // ----- what can be said of the words -----

  predicate NoneEmpty(words: seq<string>) {
    forall i :: 0 <= i < |words| ==> words[i] != ""
  }

  lemma NoneEmptyConcat(a: seq<string>, b: seq<string>)
    ensures NoneEmpty(a + b) <==> NoneEmpty(a) && NoneEmpty(b)
  {
    assert forall i :: 0 <= i < |a| ==> a[i] == (a + b)[i];
    assert forall i :: 0 <= i < |b| ==> b[i] == (a + b)[|a| + i];
  }

  lemma {:induction false} NoneEmptyRepeated(name: string, vs: seq<string>)
    requires name != ""
    ensures NoneEmpty(Repeated(name, vs)) <==> NoneEmpty(vs)
    ensures |Repeated(name, vs)| == 2 * |vs|
  {
    if vs == [] {
    } else {
      NoneEmptyRepeated(name, vs[1..]);
      NoneEmptyConcat([name, vs[0]], Repeated(name, vs[1..]));
      NoneEmptyConcat([vs[0]], vs[1..]);
      assert [vs[0]] + vs[1..] == vs;
      assert NoneEmpty([vs[0]]) <==> vs[0] != "";
      assert NoneEmpty([name, vs[0]]) <==> vs[0] != "" by {
        assert [name, vs[0]][1] == vs[0];
      }
    }
  }

  lemma PairOfWords(name: string, v: string)
    requires name != ""
    ensures NoneEmpty([name, v]) <==> v != ""
  {
    assert [name, v][0] == name && [name, v][1] == v;
  }

  lemma ValuedNotEmpty(name: string, v: string)
    requires name != ""
    ensures NoneEmpty(Valued(name, v))
  {
    PairOfWords(name, v);
  }

  lemma HeadNotEmpty(x: Input)
    ensures NoneEmpty(HeadWords(x)) <==> x.r.prompt != ""
  {
    var a, b := ["-p", x.r.prompt], ["--output-format", Format(x.r)];
    var c := Switched("--verbose", Format(x.r) == "stream-json");
    var model := if x.r.model == "" then x.defaultModel else x.r.model;
    var d, e := Valued("--model", model), Valued("--fallback-model", x.r.fallbackModel);
    PairOfWords("-p", x.r.prompt);
    PairOfWords("--output-format", Format(x.r));
    ValuedNotEmpty("--model", model);
    ValuedNotEmpty("--fallback-model", x.r.fallbackModel);
    NoneEmptyConcat(a + b + c + d, e);
    NoneEmptyConcat(a + b + c, d);
    NoneEmptyConcat(a + b, c);
    NoneEmptyConcat(a, b);
  }

  lemma SessionNotEmpty(x: Input)
    requires x.newId != ""
    ensures NoneEmpty(SessionWords(x))
  {
    var id := if x.r.sessionId == "" then x.newId else x.r.sessionId;
    PairOfWords("--resume", x.r.resume);
    PairOfWords("--session-id", id);
    NoneEmptyConcat(if x.r.resume != "" then ["--resume", x.r.resume]
                    else if x.r.continue_ then ["--continue"] else ["--session-id", id],
                    Switched("--fork-session", x.r.fork));
  }

  lemma LimitsNotEmpty(r: RunRequest)
    ensures NoneEmpty(LimitWords(r))
  {
    var a, b := Valued("--add-dir", r.workdir), Valued("--permission-mode", r.permissionMode);
    var c := Valued("--tools", r.tools);
    ValuedNotEmpty("--add-dir", r.workdir);
    ValuedNotEmpty("--permission-mode", r.permissionMode);
    ValuedNotEmpty("--tools", r.tools);
    NoneEmptyConcat(a + b, c);
    NoneEmptyConcat(a, b);
  }

  lemma CapsNotEmpty(r: RunRequest)
    ensures NoneEmpty(CapWords(r)) <==> (r.maxBudget.Positive? ==> r.maxBudget.text != "")
  {
    var turns := if r.maxTurns > 0 then Itoa(r.maxTurns) else "";
    ValuedNotEmpty("--max-turns", turns);
    if r.maxBudget.Positive? {
      PairOfWords("--max-budget-usd", r.maxBudget.text);
    }
    NoneEmptyConcat(Valued("--max-turns", turns),
                    if r.maxBudget.Positive? then ["--max-budget-usd", r.maxBudget.text] else []);
  }

  lemma PromptsNotEmpty(r: RunRequest)
    ensures NoneEmpty(PromptWords(r)) && NoneEmpty(JsonWords(r)) && NoneEmpty(SchemaWords(r))
  {
    ValuedNotEmpty("--system-prompt", r.systemPrompt);
    ValuedNotEmpty("--append-system-prompt", r.appendSystemPrompt);
    NoneEmptyConcat(Valued("--system-prompt", r.systemPrompt), Valued("--append-system-prompt", r.appendSystemPrompt));
    ValuedNotEmpty("--mcp-config", r.mcpConfig.GetOr(""));
    NoneEmptyConcat(Valued("--mcp-config", r.mcpConfig.GetOr("")), Switched("--strict-mcp-config", r.strictMcpConfig));
    ValuedNotEmpty("--agents", r.agents.GetOr(""));
    ValuedNotEmpty("--json-schema", r.jsonSchema.GetOr(""));
    NoneEmptyConcat(Valued("--agents", r.agents.GetOr("")), Valued("--json-schema", r.jsonSchema.GetOr("")));
  }

  lemma SettingsNotEmpty(r: RunRequest)
    ensures NoneEmpty(SettingWords(r))
    ensures NoneEmpty(PluginWords(r)) <==> NoneEmpty(r.pluginDirs) && NoneEmpty(r.pluginUrls)
  {
    var a, b := Switched("--bare", r.bare), Valued("--effort", r.effort);
    var c := Valued("--setting-sources", r.settingSources);
    ValuedNotEmpty("--effort", r.effort);
    ValuedNotEmpty("--setting-sources", r.settingSources);
    NoneEmptyConcat(a + b, c);
    NoneEmptyConcat(a, b);
    NoneEmptyRepeated("--plugin-dir", r.pluginDirs);
    NoneEmptyRepeated("--plugin-url", r.pluginUrls);
    NoneEmptyConcat(Repeated("--plugin-dir", r.pluginDirs), Repeated("--plugin-url", r.pluginUrls));
  }

  /** Exactly when no word is empty: the prompt and the plugin entries are not, nor a printed budget. */
  lemma NoEmptyWord(x: Input)
    requires x.newId != ""
    ensures NoneEmpty(Shown(Order(), x)) <==>
            && x.r.prompt != "" && NoneEmpty(x.r.pluginDirs) && NoneEmpty(x.r.pluginUrls)
            && (x.r.maxBudget.Positive? ==> x.r.maxBudget.text != "")
  {
    AsWritten(x);
    HeadNotEmpty(x);
    SessionNotEmpty(x);
    LimitsNotEmpty(x.r);
    CapsNotEmpty(x.r);
    PromptsNotEmpty(x.r);
    SettingsNotEmpty(x.r);
    var sofar := HeadWords(x);
    NoneEmptyConcat(sofar, SessionWords(x));
    sofar := sofar + SessionWords(x);
    NoneEmptyConcat(sofar, LimitWords(x.r));
    sofar := sofar + LimitWords(x.r);
    NoneEmptyConcat(sofar, CapWords(x.r));
    sofar := sofar + CapWords(x.r);
    NoneEmptyConcat(sofar, PromptWords(x.r));
    sofar := sofar + PromptWords(x.r);
    NoneEmptyConcat(sofar, JsonWords(x.r));
    sofar := sofar + JsonWords(x.r);
    NoneEmptyConcat(sofar, SchemaWords(x.r));
    sofar := sofar + SchemaWords(x.r);
    NoneEmptyConcat(sofar, SettingWords(x.r));
    NoneEmptyConcat(sofar + SettingWords(x.r), PluginWords(x.r));
  }

  // ----- how many words -----

  function One(b: bool): nat {
    if b then 1 else 0
  }

  /** The flags that stand alone. */
  function SwitchesOn(r: RunRequest): nat {
    One(r.stream || r.outputFormat == "stream-json") + One(r.resume == "" && r.continue_) + One(r.fork)
    + One(r.strictMcpConfig) + One(r.bare)
  }

  /** Prompt and format always, the models if given. */
  function HeadValues(r: RunRequest, defaultModel: string): nat {
    2 + One(r.model != "" || defaultModel != "") + One(r.fallbackModel != "")
  }

  function LimitValues(r: RunRequest): nat {
    One(r.workdir != "") + One(r.permissionMode != "") + One(r.tools != "") + One(r.maxTurns > 0)
    + One(r.maxBudget.Positive?)
  }

  function TextValues(r: RunRequest): nat {
    One(r.systemPrompt != "") + One(r.appendSystemPrompt != "") + One(r.mcpConfig.GetOr("") != "")
    + One(r.agents.GetOr("") != "") + One(r.jsonSchema.GetOr("") != "")
    + One(r.effort != "") + One(r.settingSources != "")
  }

  /** The flags that take a value; a session is resumed or named unless the last one is continued. */
  function ValuesGiven(r: RunRequest, defaultModel: string): nat {
    HeadValues(r, defaultModel) + One(r.resume != "" || !r.continue_) + LimitValues(r) + TextValues(r)
    + |r.pluginDirs| + |r.pluginUrls|
  }

  lemma HeadCount(x: Input)
    ensures |HeadWords(x)| == One(x.r.stream || x.r.outputFormat == "stream-json") + 2 * HeadValues(x.r, x.defaultModel)
  {
    assert "json"[0] == 'j' && "stream-json"[0] == 's';
  }

  lemma SessionCount(x: Input)
    ensures |SessionWords(x)| == One(x.r.resume == "" && x.r.continue_) + One(x.r.fork)
            + 2 * One(x.r.resume != "" || !x.r.continue_)
  {
  }

  lemma LimitsCount(r: RunRequest)
    ensures |LimitWords(r)| + |CapWords(r)| == 2 * LimitValues(r)
  {
    if r.maxTurns > 0 {
      AtoiOfItoa(r.maxTurns);
    }
  }

  lemma TextsCount(r: RunRequest)
    ensures |PromptWords(r)| + |JsonWords(r)| + |SchemaWords(r)| + |SettingWords(r)| ==
            One(r.strictMcpConfig) + One(r.bare) + 2 * TextValues(r)
  {
    PromptsCount(r);
    JsonCount(r);
    SettingsCount(r);
  }

  lemma PromptsCount(r: RunRequest)
    ensures |PromptWords(r)| == 2 * (One(r.systemPrompt != "") + One(r.appendSystemPrompt != ""))
  {
  }

  lemma JsonCount(r: RunRequest)
    ensures |JsonWords(r)| == 2 * One(r.mcpConfig.GetOr("") != "") + One(r.strictMcpConfig)
    ensures |SchemaWords(r)| == 2 * (One(r.agents.GetOr("") != "") + One(r.jsonSchema.GetOr("") != ""))
  {
  }

  lemma SettingsCount(r: RunRequest)
    ensures |SettingWords(r)| == One(r.bare) + 2 * (One(r.effort != "") + One(r.settingSources != ""))
  {
  }

  lemma PluginsCount(r: RunRequest)
    ensures |PluginWords(r)| == 2 * (|r.pluginDirs| + |r.pluginUrls|)
  {
    NoneEmptyRepeated("--plugin-dir", r.pluginDirs);
    NoneEmptyRepeated("--plugin-url", r.pluginUrls);
  }

  lemma GroupsCount(x: Input)
    ensures |Words(x)| == |HeadWords(x)| + |SessionWords(x)| + (|LimitWords(x.r)| + |CapWords(x.r)|)
            + (|PromptWords(x.r)| + |JsonWords(x.r)| + |SchemaWords(x.r)| + |SettingWords(x.r)|) + |PluginWords(x.r)|
  {
  }

  lemma WordsCount(x: Input)
    ensures |Words(x)| == SwitchesOn(x.r) + 2 * ValuesGiven(x.r, x.defaultModel)
  {
    GroupsCount(x);
    HeadCount(x);
    SessionCount(x);
    LimitsCount(x.r);
    TextsCount(x.r);
    PluginsCount(x.r);
  }

  /** One word for every switch that is on, two for every value given. */
  lemma WordCount(x: Input)
    requires x.newId != ""
    ensures |Shown(Order(), x)| == SwitchesOn(x.r) + 2 * ValuesGiven(x.r, x.defaultModel)
  {
    AsWritten(x);
    WordsCount(x);
  }

  // ----- what was left to a default -----

  /**
   On the decoded line: an omitted format is json, the request's model wins over the configured one,
   and the session is the resumed one, the last one, the given one or a new one, in that order.
   */
  lemma DefaultsFilled(x: Input) returns (d: Decoded)
    requires x.newId != ""
    ensures Decode(Shown(Order(), x)) == Some(d)
    ensures !x.r.stream && x.r.outputFormat == "" ==> d.run.outputFormat == "json"
    ensures !x.r.stream && x.r.outputFormat != "" ==> d.run.outputFormat == x.r.outputFormat
    ensures x.r.stream ==> d.run.outputFormat == "stream-json"
    ensures d.run.verbose <==> d.run.outputFormat == "stream-json"
    ensures x.r.model != "" ==> d.run.model == x.r.model
    ensures x.r.model == "" ==> d.run.model == x.defaultModel
    ensures d.session.resume == x.r.resume
    ensures d.session.continue_ <==> x.r.resume == "" && x.r.continue_
    ensures x.r.resume == "" && !x.r.continue_ ==>
              d.session.sessionId == if x.r.sessionId != "" then x.r.sessionId else x.newId
  {
    DecodeBuilt(x);
    d := Normalised(x);
  }

  // ----- numbers -----

  /** Decimal digits. */
  lemma ItoaIsDecimal(n: nat, d: nat)
    requires d < 10
    ensures Itoa(d) == ["0123456789"[d]]
    ensures n > 0 ==> Itoa(10 * n + d) == Itoa(n) + Itoa(d)
  {
    assert (10 * n + d) / 10 == n && (10 * n + d) % 10 == d;
    assert "0123456789"[d] as nat == '0' as nat + d;
  }
}
