/** From a run request to the command line of the `claude` program, and back. */
module Argv {
  import opened Text

  // ----- requests -----

  /** `max_budget_usd`: only its sign and its printed form matter. */
  datatype Amount = Negative | Zero | Positive(text: string)

  datatype RunRequest = RunRequest(
    prompt: string, workdir: string, model: string, continue_: bool,
    sessionId: string, resume: string, fork: bool,
    outputFormat: string, stream: bool,
    permissionMode: string, tools: string,
    maxTurns: int, maxBudget: Amount,
    appendSystemPrompt: string, systemPrompt: string,
    mcpConfig: Option<string>, strictMcpConfig: bool, agents: Option<string>, jsonSchema: Option<string>,
    bare: bool, effort: string, fallbackModel: string, settingSources: string,
    pluginDirs: seq<string>, pluginUrls: seq<string>)

  datatype Problem =
    | NoPrompt | BadOutputFormat | BadPermissionMode | BadEffort | NegativeTurns | NegativeBudget
    | BadSessionId | BadResume | ContinueAndResume | BadJsonSchema | BadMcpConfig | BadAgents

  /** `uuid.Parse` and `json.Valid`. */
  datatype Checks = Checks(isUuid: string -> bool, validJson: string -> bool)

  predicate BadJson(j: Option<string>, ck: Checks) {
    j.Some? && !ck.validJson(j.value)
  }

  function Validate(r: RunRequest, ck: Checks): Option<Problem> {
    if r.prompt == "" then Some(NoPrompt)
    else if r.outputFormat != "" && r.outputFormat !in {"text", "json", "stream-json"} then Some(BadOutputFormat)
    else if r.permissionMode != "" &&
            r.permissionMode !in {"default", "acceptEdits", "plan", "auto", "dontAsk", "bypassPermissions"}
    then Some(BadPermissionMode)
    else if r.effort != "" && r.effort !in {"low", "medium", "high", "xhigh"} then Some(BadEffort)
    else if r.maxTurns < 0 then Some(NegativeTurns)
    else if r.maxBudget.Negative? then Some(NegativeBudget)
    else if r.sessionId != "" && !ck.isUuid(r.sessionId) then Some(BadSessionId)
    else if r.resume != "" && !ck.isUuid(r.resume) then Some(BadResume)
    else if r.continue_ && r.resume != "" then Some(ContinueAndResume)
    else if BadJson(r.jsonSchema, ck) then Some(BadJsonSchema)
    else if BadJson(r.mcpConfig, ck) then Some(BadMcpConfig)
    else if BadJson(r.agents, ck) then Some(BadAgents)
    else None
  }

  predicate GoodJson(j: Option<string>, ck: Checks) {
    j.None? || ck.validJson(j.value)
  }

  /** What is asked of a request, in any order. */
  predicate ValidRequest(r: RunRequest, ck: Checks) {
    && r.prompt != ""
    && r.outputFormat in {"", "text", "json", "stream-json"}
    && r.permissionMode in {"", "default", "acceptEdits", "plan", "auto", "dontAsk", "bypassPermissions"}
    && r.effort in {"", "low", "medium", "high", "xhigh"}
    && r.maxTurns >= 0 && !r.maxBudget.Negative?
    && (r.sessionId == "" || ck.isUuid(r.sessionId))
    && (r.resume == "" || (ck.isUuid(r.resume) && !r.continue_))
    && GoodJson(r.jsonSchema, ck) && GoodJson(r.mcpConfig, ck) && GoodJson(r.agents, ck)
  }

  /** Validation refuses exactly the requests that miss any of it. */
  lemma ValidatedIff(r: RunRequest, ck: Checks)
    ensures Validate(r, ck).None? <==> ValidRequest(r, ck)
  {
  }

  function EffectiveOutputFormat(r: RunRequest): string {
    if r.stream then "stream-json" else if r.outputFormat != "" then r.outputFormat else "json"
  }

  // ----- flags -----

  datatype Flag =
    | P | OutputFormat | Verbose | Model | FallbackModel | Resume | Continue | SessionId | ForkSession
    | AddDir | PermissionMode | Tools | MaxTurns | MaxBudgetUsd | SystemPrompt | AppendSystemPrompt
    | McpConfig | StrictMcpConfig | Agents | JsonSchema | Bare | Effort | SettingSources | PluginDir | PluginUrl

  function Spelling(f: Flag): string {
    match f
    case P => "-p"
    case OutputFormat => "--output-format"
    case Verbose => "--verbose"
    case Model => "--model"
    case FallbackModel => "--fallback-model"
    case Resume => "--resume"
    case Continue => "--continue"
    case SessionId => "--session-id"
    case ForkSession => "--fork-session"
    case AddDir => "--add-dir"
    case PermissionMode => "--permission-mode"
    case Tools => "--tools"
    case MaxTurns => "--max-turns"
    case MaxBudgetUsd => "--max-budget-usd"
    case SystemPrompt => "--system-prompt"
    case AppendSystemPrompt => "--append-system-prompt"
    case McpConfig => "--mcp-config"
    case StrictMcpConfig => "--strict-mcp-config"
    case Agents => "--agents"
    case JsonSchema => "--json-schema"
    case Bare => "--bare"
    case Effort => "--effort"
    case SettingSources => "--setting-sources"
    case PluginDir => "--plugin-dir"
    case PluginUrl => "--plugin-url"
  }

  /** The arity table: every flag but these five takes one value. */
  predicate TakesValue(f: Flag) {
    f !in {Verbose, Continue, ForkSession, StrictMcpConfig, Bare}
  }

  datatype Opt = Opt(flag: Flag, value: string)

  /** How the command line shows one option. */
  function Show(o: Opt): seq<string> {
    if TakesValue(o.flag) then [Spelling(o.flag), o.value] else [Spelling(o.flag)]
  }

  function ShowAll(os: seq<Opt>): seq<string> {
    if os == [] then [] else Show(os[0]) + ShowAll(os[1..])
  }

  // ----- reading a command line -----

  ghost function FlagOf(token: string): Option<Flag> {
    if exists f: Flag :: Spelling(f) == token then
      var f: Flag :| Spelling(f) == token;
      Some(f)
    else None
  }

  /** Left to right by the arity table; a value is taken as it is, whatever it looks like. */
  ghost function ReadArgs(args: seq<string>): Option<seq<Opt>>
    decreases |args|
  {
    if args == [] then Some([])
    else
      match FlagOf(args[0])
      case None => None
      case Some(f) =>
        if TakesValue(f) && |args| < 2 then None
        else
          var value, rest := if TakesValue(f) then args[1] else "", args[if TakesValue(f) then 2 else 1..];
          match ReadArgs(rest)
          case None => None
          case Some(more) => Some([Opt(f, value)] + more)
  }

  /** Length, third and last character tell all spellings apart. */
  function Mark(s: string): (nat, char, char) {
    (|s|, if |s| > 2 then s[2] else ' ', if s == "" then ' ' else s[|s| - 1])
  }

  function FlagMark(f: Flag): (nat, char, char) {
    match f
    case P => (2, ' ', 'p')
    case OutputFormat => (15, 'o', 't')
    case Verbose => (9, 'v', 'e')
    case Model => (7, 'm', 'l')
    case FallbackModel => (16, 'f', 'l')
    case Resume => (8, 'r', 'e')
    case Continue => (10, 'c', 'e')
    case SessionId => (12, 's', 'd')
    case ForkSession => (14, 'f', 'n')
    case AddDir => (9, 'a', 'r')
    case PermissionMode => (17, 'p', 'e')
    case Tools => (7, 't', 's')
    case MaxTurns => (11, 'm', 's')
    case MaxBudgetUsd => (16, 'm', 'd')
    case SystemPrompt => (15, 's', 't')
    case AppendSystemPrompt => (22, 'a', 't')
    case McpConfig => (12, 'm', 'g')
    case StrictMcpConfig => (19, 's', 'g')
    case Agents => (8, 'a', 's')
    case JsonSchema => (13, 'j', 'a')
    case Bare => (6, 'b', 'e')
    case Effort => (8, 'e', 't')
    case SettingSources => (17, 's', 's')
    case PluginDir => (12, 'p', 'r')
    case PluginUrl => (12, 'p', 'l')
  }

  lemma MarksRight(f: Flag)
    ensures Mark(Spelling(f)) == FlagMark(f)
  {
  }

  lemma MarksDiffer(f: Flag, g: Flag)
    requires FlagMark(f) == FlagMark(g)
    ensures f == g
  {
  }

  lemma FlagOfSpelling(f: Flag)
    ensures FlagOf(Spelling(f)) == Some(f)
  {
    var g := FlagOf(Spelling(f)).value;
    assert Spelling(g) == Spelling(f);
    MarksRight(f);
    MarksRight(g);
    MarksDiffer(f, g);
  }

  ghost predicate WellFormed(os: seq<Opt>) {
    forall i :: 0 <= i < |os| ==> TakesValue(os[i].flag) || os[i].value == ""
  }

  /** Any options, with any values, are read back from how they are shown. */
  lemma {:induction false} ReadShown(os: seq<Opt>)
    requires WellFormed(os)
    ensures ReadArgs(ShowAll(os)) == Some(os)
  {
    if os == [] {
    } else {
      var o, more := os[0], ShowAll(os[1..]);
      ReadShown(os[1..]);
      FlagOfSpelling(o.flag);
      assert ShowAll(os)[0] == Spelling(o.flag);
      assert ShowAll(os)[|Show(o)|..] == more;
      assert os == [o] + os[1..];
    }
  }

  // ----- what each flag should carry -----

  function Itoa(n: nat): string {
    var digit := ('0' as nat + n % 10) as char;
    if n < 10 then [digit] else Itoa(n / 10) + [digit]
  }

  function Atoi(s: string): int {
    if s == "" then 0 else 10 * Atoi(s[..|s| - 1]) + (s[|s| - 1] as int - '0' as int)
  }

  lemma {:induction false} AtoiOfItoa(n: nat)
    ensures Atoi(Itoa(n)) == n && Itoa(n) != ""
  {
    if n >= 10 {
      AtoiOfItoa(n / 10);
      assert Itoa(n)[..|Itoa(n)| - 1] == Itoa(n / 10);
    } else {
      assert Itoa(n)[..0] == "";
    }
  }

  function OneOrNone(v: string): seq<string> {
    if v == "" then [] else [v]
  }

  function Switch(b: bool): seq<string> {
    if b then [""] else []
  }

  /** What `BuildArgs` works from: the request, the configured model and the new random id. */
  datatype Input = Input(r: RunRequest, defaultModel: string, newId: string)

  function ModelFor(x: Input): string {
    if x.r.model != "" then x.r.model else x.defaultModel
  }

  /** The id that `--session-id` pins: resume wins over continue, continue over a pinned id. */
  function PinnedId(x: Input): string {
    if x.r.resume != "" || x.r.continue_ then "" else if x.r.sessionId != "" then x.r.sessionId else x.newId
  }

  /** The id that `BuildArgs` returns. */
  function ReturnedId(x: Input): string {
    if x.r.resume != "" then x.r.resume else PinnedId(x)
  }

  function Values(f: Flag, x: Input): seq<string> {
    var r := x.r;
    match f
    case P => [r.prompt]
    case OutputFormat => [EffectiveOutputFormat(r)]
    case Verbose => Switch(EffectiveOutputFormat(r) == "stream-json")
    case Model => OneOrNone(ModelFor(x))
    case FallbackModel => OneOrNone(r.fallbackModel)
    case Resume => OneOrNone(r.resume)
    case Continue => Switch(r.resume == "" && r.continue_)
    case SessionId => OneOrNone(PinnedId(x))
    case ForkSession => Switch(r.fork)
    case AddDir => OneOrNone(r.workdir)
    case PermissionMode => OneOrNone(r.permissionMode)
    case Tools => OneOrNone(r.tools)
    case MaxTurns => if r.maxTurns > 0 then [Itoa(r.maxTurns)] else []
    case MaxBudgetUsd => if r.maxBudget.Positive? then [r.maxBudget.text] else []
    case SystemPrompt => OneOrNone(r.systemPrompt)
    case AppendSystemPrompt => OneOrNone(r.appendSystemPrompt)
    case McpConfig => OneOrNone(r.mcpConfig.GetOr(""))
    case StrictMcpConfig => Switch(r.strictMcpConfig)
    case Agents => OneOrNone(r.agents.GetOr(""))
    case JsonSchema => OneOrNone(r.jsonSchema.GetOr(""))
    case Bare => Switch(r.bare)
    case Effort => OneOrNone(r.effort)
    case SettingSources => OneOrNone(r.settingSources)
    case PluginDir => r.pluginDirs
    case PluginUrl => r.pluginUrls
  }

  function HeadFlags(): seq<Flag> {
    [P, OutputFormat, Verbose, Model, FallbackModel]
  }

  function SessionFlags(): seq<Flag> {
    [Resume, Continue, SessionId, ForkSession]
  }

  function LimitFlags(): seq<Flag> {
    [AddDir, PermissionMode, Tools]
  }

  function CapFlags(): seq<Flag> {
    [MaxTurns, MaxBudgetUsd]
  }

  function PromptFlags(): seq<Flag> {
    [SystemPrompt, AppendSystemPrompt]
  }

  function JsonFlags(): seq<Flag> {
    [McpConfig, StrictMcpConfig]
  }

  function SchemaFlags(): seq<Flag> {
    [Agents, JsonSchema]
  }

  function SettingFlags(): seq<Flag> {
    [Bare, Effort, SettingSources]
  }

  function PluginFlags(): seq<Flag> {
    [PluginDir, PluginUrl]
  }

  /** The order in which `BuildArgs` emits them. */
  function Order(): seq<Flag> {
    HeadFlags() + SessionFlags() + LimitFlags() + CapFlags() + PromptFlags() + JsonFlags() + SchemaFlags()
    + SettingFlags() + PluginFlags()
  }

  function Each(f: Flag, vs: seq<string>): seq<Opt> {
    seq(|vs|, i requires 0 <= i < |vs| => Opt(f, vs[i]))
  }

  function Emit(fs: seq<Flag>, x: Input): seq<Opt> {
    if fs == [] then [] else Each(fs[0], Values(fs[0], x)) + Emit(fs[1..], x)
  }

  // ----- building the command line -----

  lemma {:induction false} ShowConcat(a: seq<Opt>, b: seq<Opt>)
    ensures ShowAll(a + b) == ShowAll(a) + ShowAll(b)
  {
    if a == [] {
      assert a + b == b;
    } else {
      assert (a + b)[1..] == a[1..] + b;
      ShowConcat(a[1..], b);
    }
  }

  lemma {:induction false} EmitConcat(a: seq<Flag>, b: seq<Flag>, x: Input)
    ensures Emit(a + b, x) == Emit(a, x) + Emit(b, x)
  {
    if a == [] {
      assert a + b == b;
    } else {
      assert (a + b)[1..] == a[1..] + b;
      EmitConcat(a[1..], b, x);
    }
  }

  /** The command line that carries these flags. */
  function Shown(fs: seq<Flag>, x: Input): seq<string> {
    ShowAll(Emit(fs, x))
  }

  lemma NextFlag(fs: seq<Flag>, f: Flag, x: Input)
    ensures Shown(fs + [f], x) == Shown(fs, x) + ShowAll(Each(f, Values(f, x)))
  {
    var os := Each(f, Values(f, x));
    EmitConcat(fs, [f], x);
    assert [f][1..] == [];
    assert Emit([f], x) == os + [] == os;
    ShowConcat(Emit(fs, x), os);
  }

  lemma ShowOne(f: Flag, v: string)
    ensures ShowAll(Each(f, [v])) == Show(Opt(f, v))
    ensures ShowAll(Each(f, [])) == []
  {
    var os := Each(f, [v]);
    assert os == [Opt(f, v)] && os[1..] == [];
    assert Show(Opt(f, v)) + [] == Show(Opt(f, v));
  }

  /** One or no value after the flag. */
  method Put(before: seq<string>, f: Flag, on: bool, v: string, ghost fs: seq<Flag>, ghost x: Input)
    returns (args: seq<string>)
    requires before == Shown(fs, x) && Values(f, x) == if on then [v] else []
    ensures args == Shown(fs + [f], x)
  {
    NextFlag(fs, f, x);
    ShowOne(f, v);
    args := before;
    if on {
      args := args + (if TakesValue(f) then [Spelling(f), v] else [Spelling(f)]);
    }
    assert before + [] == before;
  }

  /** The flag once for every value. */
  method PutEach(before: seq<string>, f: Flag, vs: seq<string>, ghost fs: seq<Flag>, ghost x: Input)
    returns (args: seq<string>)
    requires before == Shown(fs, x) && Values(f, x) == vs && TakesValue(f)
    ensures args == Shown(fs + [f], x)
  {
    NextFlag(fs, f, x);
    args := before;
    for i := 0 to |vs|
      invariant args == before + ShowAll(Each(f, vs[..i]))
    {
      args := args + [Spelling(f), vs[i]];
      EachSnoc(f, vs, i);
      Assoc(before, ShowAll(Each(f, vs[..i])), [Spelling(f), vs[i]]);
    }
    assert vs[..|vs|] == vs;
  }

  lemma EachSnoc(f: Flag, vs: seq<string>, i: nat)
    requires i < |vs| && TakesValue(f)
    ensures ShowAll(Each(f, vs[..i + 1])) == ShowAll(Each(f, vs[..i])) + [Spelling(f), vs[i]]
  {
    ShowOne(f, vs[i]);
    assert Each(f, vs[..i + 1]) == Each(f, vs[..i]) + Each(f, [vs[i]]);
    ShowConcat(Each(f, vs[..i]), Each(f, [vs[i]]));
  }

  /** Prompt, format and models. */
  method PutHead(x: Input) returns (args: seq<string>)
    ensures args == Shown(HeadFlags(), x)
  {
    var r, format := x.r, EffectiveOutputFormat(x.r);
    ghost var fs: seq<Flag> := [];
    args := Put([], P, true, r.prompt, fs, x);
    fs := fs + [P];
    args := Put(args, OutputFormat, true, format, fs, x);
    fs := fs + [OutputFormat];
    args := Put(args, Verbose, format == "stream-json", "", fs, x);
    fs := fs + [Verbose];
    var model := r.model;
    if model == "" {
      model := x.defaultModel;
    }
    args := Put(args, Model, model != "", model, fs, x);
    fs := fs + [Model];
    args := Put(args, FallbackModel, r.fallbackModel != "", r.fallbackModel, fs, x);
    fs := fs + [FallbackModel];
    assert fs == HeadFlags();
  }

  /** Exactly one of the three ways to choose the session; the other two flags stay away. */
  method PutSession(before: seq<string>, x: Input, ghost fs: seq<Flag>) returns (args: seq<string>, sessionId: string)
    requires before == Shown(fs, x) && x.newId != ""
    ensures args == Shown(fs + SessionFlags(), x) && sessionId == ReturnedId(x)
  {
    var r := x.r;
    args := Put(before, Resume, r.resume != "", r.resume, fs, x);
    sessionId := r.resume;
    args := Put(args, Continue, r.resume == "" && r.continue_, "", fs + [Resume], x);
    var pinned := "";
    if r.resume == "" && !r.continue_ {
      pinned := r.sessionId;
      if pinned == "" {
        pinned := x.newId;
      }
      sessionId := pinned;
    }
    args := Put(args, SessionId, pinned != "", pinned, fs + [Resume] + [Continue], x);
    args := Put(args, ForkSession, r.fork, "", fs + [Resume] + [Continue] + [SessionId], x);
    assert fs + [Resume] + [Continue] + [SessionId] + [ForkSession] == fs + SessionFlags();
  }

  method PutLimits(before: seq<string>, x: Input, ghost fs: seq<Flag>) returns (args: seq<string>)
    requires before == Shown(fs, x)
    ensures args == Shown(fs + LimitFlags(), x)
  {
    var r := x.r;
    args := Put(before, AddDir, r.workdir != "", r.workdir, fs, x);
    args := Put(args, PermissionMode, r.permissionMode != "", r.permissionMode, fs + [AddDir], x);
    args := Put(args, Tools, r.tools != "", r.tools, fs + [AddDir] + [PermissionMode], x);
    assert fs + [AddDir] + [PermissionMode] + [Tools] == fs + LimitFlags();
  }

  method PutCaps(before: seq<string>, x: Input, ghost fs: seq<Flag>) returns (args: seq<string>)
    requires before == Shown(fs, x)
    ensures args == Shown(fs + CapFlags(), x)
  {
    var r := x.r;
    args := Put(before, MaxTurns, r.maxTurns > 0, if r.maxTurns > 0 then Itoa(r.maxTurns) else "", fs, x);
    args := Put(args, MaxBudgetUsd, r.maxBudget.Positive?, if r.maxBudget.Positive? then r.maxBudget.text else "",
                fs + [MaxTurns], x);
    assert fs + [MaxTurns] + [MaxBudgetUsd] == fs + CapFlags();
  }

  method PutPrompts(before: seq<string>, x: Input, ghost fs: seq<Flag>) returns (args: seq<string>)
    requires before == Shown(fs, x)
    ensures args == Shown(fs + PromptFlags(), x)
  {
    var r := x.r;
    args := Put(before, SystemPrompt, r.systemPrompt != "", r.systemPrompt, fs, x);
    args := Put(args, AppendSystemPrompt, r.appendSystemPrompt != "", r.appendSystemPrompt, fs + [SystemPrompt], x);
    assert fs + [SystemPrompt] + [AppendSystemPrompt] == fs + PromptFlags();
  }

  method PutJson(before: seq<string>, x: Input, ghost fs: seq<Flag>) returns (args: seq<string>)
    requires before == Shown(fs, x)
    ensures args == Shown(fs + JsonFlags(), x)
  {
    var mcpConfig := x.r.mcpConfig.GetOr("");
    args := Put(before, McpConfig, mcpConfig != "", mcpConfig, fs, x);
    args := Put(args, StrictMcpConfig, x.r.strictMcpConfig, "", fs + [McpConfig], x);
    assert fs + [McpConfig] + [StrictMcpConfig] == fs + JsonFlags();
  }

  method PutSchemas(before: seq<string>, x: Input, ghost fs: seq<Flag>) returns (args: seq<string>)
    requires before == Shown(fs, x)
    ensures args == Shown(fs + SchemaFlags(), x)
  {
    var agents, jsonSchema := x.r.agents.GetOr(""), x.r.jsonSchema.GetOr("");
    args := Put(before, Agents, agents != "", agents, fs, x);
    args := Put(args, JsonSchema, jsonSchema != "", jsonSchema, fs + [Agents], x);
    assert fs + [Agents] + [JsonSchema] == fs + SchemaFlags();
  }

  method PutSettings(before: seq<string>, x: Input, ghost fs: seq<Flag>) returns (args: seq<string>)
    requires before == Shown(fs, x)
    ensures args == Shown(fs + SettingFlags(), x)
  {
    args := Put(before, Bare, x.r.bare, "", fs, x);
    args := PutEffort(args, x, fs + [Bare]);
    assert fs + [Bare] + [Effort, SettingSources] == fs + SettingFlags();
  }

  method PutEffort(before: seq<string>, x: Input, ghost fs: seq<Flag>) returns (args: seq<string>)
    requires before == Shown(fs, x)
    ensures args == Shown(fs + [Effort, SettingSources], x)
  {
    var r := x.r;
    args := Put(before, Effort, r.effort != "", r.effort, fs, x);
    args := Put(args, SettingSources, r.settingSources != "", r.settingSources, fs + [Effort], x);
    assert fs + [Effort] + [SettingSources] == fs + [Effort, SettingSources];
  }

  method PutPlugins(before: seq<string>, x: Input, ghost fs: seq<Flag>) returns (args: seq<string>)
    requires before == Shown(fs, x)
    ensures args == Shown(fs + PluginFlags(), x)
  {
    args := PutEach(before, PluginDir, x.r.pluginDirs, fs, x);
    args := PutEach(args, PluginUrl, x.r.pluginUrls, fs + [PluginDir], x);
    assert fs + [PluginDir] + [PluginUrl] == fs + PluginFlags();
  }

  datatype Built = Built(args: seq<string>, sessionId: string)

  method BuildArgs(x: Input, ck: Checks) returns (out: Result<Built, Problem>)
    requires x.newId != ""
    ensures out == match Validate(x.r, ck)
                   case Some(problem) => Err(problem)
                   case None => Ok(Built(Shown(Order(), x), ReturnedId(x)))
    ensures out.Ok? <==> ValidRequest(x.r, ck)
  {
    ValidatedIff(x.r, ck);
    var problem := Validate(x.r, ck);
    if problem.Some? {
      return Err(problem.value);
    }
    var args := PutHead(x);
    var sessionId: string;
    ghost var fs := HeadFlags();
    args, sessionId := PutSession(args, x, fs);
    fs := fs + SessionFlags();
    args := PutLimits(args, x, fs);
    fs := fs + LimitFlags();
    args := PutCaps(args, x, fs);
    fs := fs + CapFlags();
    args := PutPrompts(args, x, fs);
    fs := fs + PromptFlags();
    args := PutJson(args, x, fs);
    fs := fs + JsonFlags();
    args := PutSchemas(args, x, fs);
    fs := fs + SchemaFlags();
    args := PutSettings(args, x, fs);
    fs := fs + SettingFlags();
    args := PutPlugins(args, x, fs);
    return Ok(Built(args, sessionId));
  }

  // ----- decoding what was built -----

  function ValuesOf(os: seq<Opt>, f: Flag): seq<string> {
    if os == [] then []
    else (if os[0].flag == f then [os[0].value] else []) + ValuesOf(os[1..], f)
  }

  lemma {:induction false} ValuesConcat(a: seq<Opt>, b: seq<Opt>, f: Flag)
    ensures ValuesOf(a + b, f) == ValuesOf(a, f) + ValuesOf(b, f)
  {
    if a == [] {
      assert a + b == b;
    } else {
      assert (a + b)[1..] == a[1..] + b;
      ValuesConcat(a[1..], b, f);
    }
  }

  lemma EachTail(g: Flag, vs: seq<string>)
    requires vs != []
    ensures Each(g, vs)[0] == Opt(g, vs[0]) && Each(g, vs)[1..] == Each(g, vs[1..])
  {
    var all, more := Each(g, vs), Each(g, vs[1..]);
    assert |all[1..]| == |more|;
    forall i | 0 <= i < |more|
      ensures all[1..][i] == more[i]
    {
      assert all[1..][i] == all[i + 1] == Opt(g, vs[i + 1]);
      assert more[i] == Opt(g, vs[1..][i]);
    }
  }

  lemma {:induction false} ValuesOfEach(g: Flag, vs: seq<string>, f: Flag)
    ensures ValuesOf(Each(g, vs), f) == if f == g then vs else []
  {
    if vs == [] {
    } else {
      ValuesOfEach(g, vs[1..], f);
      EachTail(g, vs);
      assert vs == [vs[0]] + vs[1..];
    }
  }

  ghost predicate Distinct(fs: seq<Flag>) {
    forall i, j :: 0 <= i < j < |fs| ==> fs[i] != fs[j]
  }

  lemma {:induction false} ValuesOfEmit(fs: seq<Flag>, x: Input, f: Flag)
    requires Distinct(fs)
    ensures ValuesOf(Emit(fs, x), f) == if f in fs then Values(f, x) else []
  {
    if fs == [] {
    } else {
      var os := Each(fs[0], Values(fs[0], x));
      ValuesOfEmit(fs[1..], x, f);
      ValuesConcat(os, Emit(fs[1..], x), f);
      ValuesOfEach(fs[0], Values(fs[0], x), f);
      assert f in fs <==> f == fs[0] || f in fs[1..];
    }
  }

  function Rank(f: Flag): nat {
    match f
    case P => 0 case OutputFormat => 1 case Verbose => 2 case Model => 3 case FallbackModel => 4
    case Resume => 5 case Continue => 6 case SessionId => 7 case ForkSession => 8 case AddDir => 9
    case PermissionMode => 10 case Tools => 11 case MaxTurns => 12 case MaxBudgetUsd => 13
    case SystemPrompt => 14 case AppendSystemPrompt => 15 case McpConfig => 16 case StrictMcpConfig => 17
    case Agents => 18 case JsonSchema => 19 case Bare => 20 case Effort => 21 case SettingSources => 22
    case PluginDir => 23 case PluginUrl => 24
  }

  lemma Ranked(f: Flag)
    ensures Rank(f) < |Order()| == 25 && Order()[Rank(f)] == f
  {
  }

  lemma RanksRight(i: nat)
    requires i < 25
    ensures Rank(Order()[i]) == i
  {
  }

  /** Every flag has exactly one place in the order. */
  lemma {:induction false} OrderIsComplete(f: Flag)
    ensures f in Order() && Distinct(Order())
  {
    Ranked(f);
    forall i, j | 0 <= i < j < |Order()|
      ensures Order()[i] != Order()[j]
    {
      RanksRight(i);
      RanksRight(j);
    }
  }

  lemma {:induction false} EmitWellFormed(fs: seq<Flag>, x: Input)
    ensures WellFormed(Emit(fs, x))
  {
    if fs == [] {
    } else {
      EmitWellFormed(fs[1..], x);
      assert forall v :: v in Values(fs[0], x) ==> TakesValue(fs[0]) || v == "";
    }
  }

  datatype WhatToRun = WhatToRun(
    prompt: string, outputFormat: string, verbose: bool, model: string, fallbackModel: string)

  datatype WhichSession = WhichSession(resume: string, continue_: bool, sessionId: string, fork: bool)

  datatype Limits = Limits(addDir: string, permissionMode: string, tools: string, maxTurns: int, maxBudget: string)

  datatype Prompts = Prompts(
    systemPrompt: string, appendSystemPrompt: string,
    mcpConfig: string, strictMcpConfig: bool, agents: string, jsonSchema: string)

  datatype Settings = Settings(
    bare: bool, effort: string, settingSources: string, pluginDirs: seq<string>, pluginUrls: seq<string>)

  /** A request as the command line carries it: defaults filled in, one session choice made. */
  datatype Decoded = Decoded(
    run: WhatToRun, session: WhichSession, limits: Limits, prompts: Prompts, settings: Settings)

  function TheText(os: seq<Opt>, f: Flag): string {
    var vs := ValuesOf(os, f);
    if vs == [] then "" else vs[|vs| - 1]
  }

  predicate Has(os: seq<Opt>, f: Flag) {
    ValuesOf(os, f) != []
  }

  function CollectRun(os: seq<Opt>): WhatToRun {
    WhatToRun(TheText(os, P), TheText(os, OutputFormat), Has(os, Verbose),
              TheText(os, Model), TheText(os, FallbackModel))
  }

  function CollectSession(os: seq<Opt>): WhichSession {
    WhichSession(TheText(os, Resume), Has(os, Continue), TheText(os, SessionId), Has(os, ForkSession))
  }

  function CollectLimits(os: seq<Opt>): Limits {
    Limits(TheText(os, AddDir), TheText(os, PermissionMode), TheText(os, Tools),
           Atoi(TheText(os, MaxTurns)), TheText(os, MaxBudgetUsd))
  }

  function CollectPrompts(os: seq<Opt>): Prompts {
    Prompts(TheText(os, SystemPrompt), TheText(os, AppendSystemPrompt), TheText(os, McpConfig),
            Has(os, StrictMcpConfig), TheText(os, Agents), TheText(os, JsonSchema))
  }

  function CollectSettings(os: seq<Opt>): Settings {
    Settings(Has(os, Bare), TheText(os, Effort), TheText(os, SettingSources),
             ValuesOf(os, PluginDir), ValuesOf(os, PluginUrl))
  }

  /** The last value wins for a flag that takes one. */
  function Collect(os: seq<Opt>): Decoded {
    Decoded(CollectRun(os), CollectSession(os), CollectLimits(os), CollectPrompts(os), CollectSettings(os))
  }

  ghost function Decode(args: seq<string>): Option<Decoded> {
    match ReadArgs(args)
    case None => None
    case Some(os) => Some(Collect(os))
  }

  function RunOf(x: Input): WhatToRun {
    var format := EffectiveOutputFormat(x.r);
    WhatToRun(x.r.prompt, format, format == "stream-json", ModelFor(x), x.r.fallbackModel)
  }

  function SessionOf(x: Input): WhichSession {
    WhichSession(x.r.resume, x.r.resume == "" && x.r.continue_, PinnedId(x), x.r.fork)
  }

  function LimitsOf(x: Input): Limits {
    Limits(x.r.workdir, x.r.permissionMode, x.r.tools, if x.r.maxTurns > 0 then x.r.maxTurns else 0,
           if x.r.maxBudget.Positive? then x.r.maxBudget.text else "")
  }

  function PromptsOf(x: Input): Prompts {
    Prompts(x.r.systemPrompt, x.r.appendSystemPrompt, x.r.mcpConfig.GetOr(""), x.r.strictMcpConfig,
            x.r.agents.GetOr(""), x.r.jsonSchema.GetOr(""))
  }

  function SettingsOf(x: Input): Settings {
    Settings(x.r.bare, x.r.effort, x.r.settingSources, x.r.pluginDirs, x.r.pluginUrls)
  }

  function Normalised(x: Input): Decoded {
    Decoded(RunOf(x), SessionOf(x), LimitsOf(x), PromptsOf(x), SettingsOf(x))
  }

  lemma EmittedValues(x: Input, f: Flag)
    ensures ValuesOf(Emit(Order(), x), f) == Values(f, x)
  {
    OrderIsComplete(f);
    ValuesOfEmit(Order(), x, f);
  }

  predicate CarriesFlag(os: seq<Opt>, x: Input, f: Flag) {
    ValuesOf(os, f) == Values(f, x)
  }

  ghost predicate CarriesInput(os: seq<Opt>, x: Input) {
    forall f :: CarriesFlag(os, x, f)
  }

  lemma CarriedText(os: seq<Opt>, x: Input, f: Flag, v: string)
    requires CarriesInput(os, x) && (Values(f, x) == OneOrNone(v) || Values(f, x) == [v])
    ensures TheText(os, f) == v
  {
    assert CarriesFlag(os, x, f);
  }

  lemma CarriedSwitch(os: seq<Opt>, x: Input, f: Flag, on: bool)
    requires CarriesInput(os, x) && Values(f, x) == Switch(on)
    ensures Has(os, f) == on
  {
    assert CarriesFlag(os, x, f);
  }

  lemma RunCarried(os: seq<Opt>, x: Input)
    requires CarriesInput(os, x)
    ensures CollectRun(os) == RunOf(x)
  {
    CarriedText(os, x, P, x.r.prompt);
    CarriedText(os, x, OutputFormat, EffectiveOutputFormat(x.r));
    CarriedSwitch(os, x, Verbose, EffectiveOutputFormat(x.r) == "stream-json");
    CarriedText(os, x, Model, ModelFor(x));
    CarriedText(os, x, FallbackModel, x.r.fallbackModel);
  }

  lemma SessionCarried(os: seq<Opt>, x: Input)
    requires CarriesInput(os, x)
    ensures CollectSession(os) == SessionOf(x)
  {
    CarriedText(os, x, Resume, x.r.resume);
    CarriedSwitch(os, x, Continue, x.r.resume == "" && x.r.continue_);
    CarriedText(os, x, SessionId, PinnedId(x));
    CarriedSwitch(os, x, ForkSession, x.r.fork);
  }

  lemma LimitsCarried(os: seq<Opt>, x: Input)
    requires CarriesInput(os, x)
    ensures CollectLimits(os) == LimitsOf(x)
  {
    CarriedText(os, x, AddDir, x.r.workdir);
    CarriedText(os, x, PermissionMode, x.r.permissionMode);
    CarriedText(os, x, Tools, x.r.tools);
    CarriedText(os, x, MaxBudgetUsd, LimitsOf(x).maxBudget);
    if x.r.maxTurns > 0 {
      AtoiOfItoa(x.r.maxTurns);
      CarriedText(os, x, MaxTurns, Itoa(x.r.maxTurns));
    } else {
      CarriedText(os, x, MaxTurns, "");
    }
  }

  lemma PromptsCarried(os: seq<Opt>, x: Input)
    requires CarriesInput(os, x)
    ensures CollectPrompts(os) == PromptsOf(x)
  {
    CarriedText(os, x, SystemPrompt, x.r.systemPrompt);
    CarriedText(os, x, AppendSystemPrompt, x.r.appendSystemPrompt);
    CarriedSwitch(os, x, StrictMcpConfig, x.r.strictMcpConfig);
    JsonCarried(os, x);
  }

  lemma JsonCarried(os: seq<Opt>, x: Input)
    requires CarriesInput(os, x)
    ensures TheText(os, McpConfig) == x.r.mcpConfig.GetOr("")
    ensures TheText(os, Agents) == x.r.agents.GetOr("")
    ensures TheText(os, JsonSchema) == x.r.jsonSchema.GetOr("")
  {
    CarriedText(os, x, McpConfig, x.r.mcpConfig.GetOr(""));
    CarriedText(os, x, Agents, x.r.agents.GetOr(""));
    CarriedText(os, x, JsonSchema, x.r.jsonSchema.GetOr(""));
  }

  lemma CarriedList(os: seq<Opt>, x: Input, f: Flag, vs: seq<string>)
    requires CarriesInput(os, x) && Values(f, x) == vs
    ensures ValuesOf(os, f) == vs
  {
    assert CarriesFlag(os, x, f);
  }

  lemma SettingsCarried(os: seq<Opt>, x: Input)
    requires CarriesInput(os, x)
    ensures CollectSettings(os) == SettingsOf(x)
  {
    CarriedSwitch(os, x, Bare, x.r.bare);
    CarriedText(os, x, Effort, x.r.effort);
    CarriedText(os, x, SettingSources, x.r.settingSources);
    PluginsCarried(os, x);
  }

  lemma PluginsCarried(os: seq<Opt>, x: Input)
    requires CarriesInput(os, x)
    ensures ValuesOf(os, PluginDir) == x.r.pluginDirs && ValuesOf(os, PluginUrl) == x.r.pluginUrls
  {
    CarriedList(os, x, PluginDir, x.r.pluginDirs);
    CarriedList(os, x, PluginUrl, x.r.pluginUrls);
  }

  lemma EmitCarries(x: Input)
    ensures CarriesInput(Emit(Order(), x), x)
  {
    forall f: Flag
      ensures CarriesFlag(Emit(Order(), x), x, f)
    {
      EmittedValues(x, f);
    }
  }

  lemma CollectCarried(os: seq<Opt>, x: Input)
    requires CarriesInput(os, x)
    ensures Collect(os) == Normalised(x)
  {
    RunCarried(os, x);
    SessionCarried(os, x);
    LimitsCarried(os, x);
    PromptsCarried(os, x);
    SettingsCarried(os, x);
  }

  /**
   Decoding what `BuildArgs` emits gives back the request, for every prompt, path, JSON text and
   plugin list, values that look like flags included.
   */
  lemma DecodeBuilt(x: Input)
    ensures Decode(Shown(Order(), x)) == Some(Normalised(x))
  {
    EmitWellFormed(Order(), x);
    ReadShown(Emit(Order(), x));
    EmitCarries(x);
    CollectCarried(Emit(Order(), x), x);
  }

  /**
   The id `BuildArgs` returns is the one on the command line: the resumed one or the pinned one.
   It is empty exactly when the command line says `--continue`, and just one choice is made.
   */
  lemma {:induction false} ReturnedIdIsDecoded(x: Input) returns (d: Decoded)
    requires x.newId != ""
    ensures Decode(Shown(Order(), x)) == Some(d)
    ensures ReturnedId(x) == if d.session.resume != "" then d.session.resume else d.session.sessionId
    ensures ReturnedId(x) == "" <==> d.session.continue_
    ensures d.session.resume != "" ==> d.session.sessionId == "" && !d.session.continue_
    ensures d.session.sessionId != "" ==> !d.session.continue_
  {
    DecodeBuilt(x);
    d := Normalised(x);
  }

  /** `Runner.Stream` forces streaming, so the child always speaks stream-json, verbosely. */
  lemma {:induction false} StreamSpeaksStreamJson(x: Input) returns (d: Decoded)
    requires x.r.stream
    ensures Decode(Shown(Order(), x)) == Some(d)
    ensures d.run.outputFormat == "stream-json" && d.run.verbose
  {
    DecodeBuilt(x);
    d := Normalised(x);
  }
}
