# clauded, modelled in Dafny

clauded is a daemon that runs the `claude` command line program for HTTP clients. This project
models the parts of it that carry an algorithm and proves what they promise, alone and together.

- **Streaming** (`EventFormat`, `EventStream`, `EventClient`, `MessageContent`, `EventStandard`,
  `StreamDelivery`, `StreamEnds`, `JsonText`). The daemon splits the child's output into lines,
  frames each as a server-sent event and closes with `error` and `done` events whose payload is
  escaped JSON; the web page reads the stream back from arbitrary chunks with a small hand-written
  parser and hands each event to code that may throw. Proved: every chunking gives the same
  events, a cut gives a prefix, the events of every run are in the response complete and in order,
  exactly which child output makes the page break off and what text, result and session it holds
  otherwise, when an error event comes and what it says, stderr text of any kind survives the
  escaping, and the page agrees with the event-stream parser of the WHATWG HTML Standard (sections
  9.2.5 and 9.2.6) exactly on payloads that are "plain".
- **Paths** (`FileTree`, `LinkLoops`, `Allowlist`, `CleanPaths`). A file tree with links, link
  resolution, the canonical form of a path that need not exist yet, and the allowlist test.
  Proved: resolution composes and fails exactly at walls and loops, cleaning follows `..` as the
  tree does, canonical forms are idempotent, the textual prefix test is the component test.
- **Sessions** (`Sessions`, `StoreCrash`, `StoreSchedule`). The store as a class with its in-place
  updates, its persistence as interleaved steps on inodes with partial writes and crashes, from
  the moment a daemon opens the file, and which schedules of overlapping Upserts leave the file
  equal to memory.
- **Requests** (`Argv`, `ArgvText`, `Handlers`, `Resumption`, `Restart`, `RunSlots`, `RateLimit`,
  `Conversation`). Gates, command line, concurrency slots, rate limiting, and where a resumed
  session runs after any sequence of overlapping requests, and after restarts. The command line is
  also written out word by word.
- **Flags** (`FlagScan`, `FlagGrammar`). The flag parser against a grammar, the pre-scan for
  `--config` against the full parse, and list values.

`Text` holds splitting, joining and trimming with their laws. Strings are decoded text; a path is
the sequence of its components and is turned into text where the code compares text. Calls into
other code are parameters: `EvalSymlinks` (specified by `Allowlist.Resolves`), `JSON.parse`
(specified by `EventClient.ReadsFlatObjects`), the id probe on an output line (`Extract`), UUID and
JSON checks (`Checks`), value checks of flags (`Accepts`), the clock, and whether disk, network or
semaphore succeed.

Findings where the code does less than its comments or documentation suggest; the model follows the
code:

- A payload with a CR before its last visible character, or with blanks at its ends, is read
  differently by the page and by a standard client (`EventStandard.PageMeetsStandard` says exactly
  when, `EventStandard.CarriageReturnSplits` gives an input).
- An exception in an event handler ends the page's reader, and nothing later is handled, `done`
  included: output such as `null`, an assistant message whose content its loop breaks on, or a
  first session id that cannot be shown (`EventClient.BreaksOffIff` says exactly when,
  `StreamDelivery.NullLineBreaksPage` gives an input).
- The store's write-then-rename is atomic only while Upserts do not overlap: overlapping ones can
  leave the file without the latest session, or lose every session at a crash
  (`StoreCrash.OverlapLeavesFileStale`, `StoreCrash.OverlapCanLoseEverything`).
  `StoreSchedule.FileIsFreshIff` says exactly which schedules leave the file equal to memory, and
  `StoreCrash.IntactIffNeverDamaging` exactly when the file stays intact.
- The allowed root `/` admits only `/` itself (`Allowlist.RootSlashAdmitsOnlyItself`).
- The pre-scan and the full parse can disagree on `--config`: `FlagScan.PreScanReadsConfigIff` says
  exactly when (inputs: `FlagScan.DashValueLost`, `FlagScan.OtherValueHidesConfig`,
  `FlagScan.PlainWordDoesNotStopPreScan`).

To check everything: `dafny verify dfyconfig.toml`.

## Model

| member | source | states |
|---|---|---|
| EventClient.ReadOn | web/index.html:266-285 | events dispatched and text left over are the same however the stream is cut into chunks: text that arrives later changes nothing already dispatched |
| EventClient.CutAnywhere | web/index.html:267-285 | cutting any text at any character dispatches a prefix of its events, never a partial or altered one |
| EventClient.ReadBack | web/index.html:270-276 | a stream of one-line frames is read back frame by frame with an empty buffer at the end |
| EventClient.LinesMean | web/index.html:273-276 | the last event line of a block names its event, its data lines, trimmed, make up the data one behind the other, and other lines are ignored |
| EventClient.BreaksOffIff | web/index.html:224-245 | among messages the page breaks off if and only if one is `null` or has assistant content its loop breaks on, or the page knows no session and the first message naming one names it by a value that has no `slice` |
| MessageContent.LoopMeans | web/index.html:227-231 | the loop over an assistant message's content throws exactly if the content is not iterable or holds a `null`, a text block whose text or a tool block whose name cannot be turned into text; otherwise it appends the text blocks in order |
| MessageContent.ReadContent | web/index.html:228-231 | the loop itself, text and exception |
| EventClient.HandledPrefix | web/index.html:260-287 | without an exception every event is handled; with one, exactly the events up to the one that throws |
| EventClient.ShownText | web/index.html:226-237 | messages handled without an exception leave their text blocks in order as the text shown; if the first text of any kind is a result's, that text and the text blocks after it |
| EventClient.Page.Handle | web/index.html:277-283 | one dispatched event changes the page's session id, text and result as `Apply` says, and throws exactly where the code does: a message sets the id only if none is known, `error` and `done` always; text that is no JSON is skipped, `null` throws |
| EventClient.Page.HandleBlock | web/index.html:273-283 | the line loop collects name and data of a block, dispatches at most one event and passes its exception on |
| EventClient.Page.DrainBuffer | web/index.html:271-284 | the inner loop handles the complete blocks of the buffer up to the first that throws; if none does it keeps exactly the unfinished rest |
| EventClient.Page.RunStreaming | web/index.html:260-287 | for any chunks, log, session id, text, result, leftover buffer and whether the reader broke off depend on their concatenation only; nothing after the event that throws is handled |
| EventStandard.BlockEnds | internal/server/sse.go:26-42 | in the standard's parser a frame's closing blank line always resets the parser, also when its payload ends in CR |
| EventStandard.PageMeetsStandard | web/index.html:271-284 | on every stream of named frames the page and the standard's parser dispatch the same events if and only if every payload is plain |
| EventStandard.CarriageReturnSplits | web/index.html:273-276 | a concrete line with a CR inside on which page and standard differ |
| JsonText.MarshalRoundTrip | internal/server/sse.go:101-114 | whatever text is put into an `error` or `done` payload, a JSON reader gets the same text back |
| JsonText.MarshalOneLine | internal/server/sse.go:101-114 | such a payload has no control character, no `<`, `>`, `&` or line separator and no blank at its ends, so it is a single line of data |
| EventStream.Response.Write | internal/server/sse.go:28-40 | a write appends what the connection still takes and fails exactly if that is not all |
| EventStream.Response.WriteSse | internal/server/sse.go:26-42 | a frame goes out whole, or is cut where the connection broke; success means whole and flushed |
| EventStream.RelayLines | internal/server/sse.go:70-87 | the scanner loop sends one message per non-empty line, learns the first id, and gives up exactly when the connection cannot carry all messages, having sent them up to the point where it broke |
| EventStream.CloseOff | internal/server/sse.go:99-114 | an error frame if there is an error, then a done frame, write errors ignored |
| EventStream.StreamRun | internal/server/sse.go:46-116 | the response is messages, error, done, clipped where the connection broke; the session is in the store before the first closing frame is begun; a client lost among the messages leaves the store alone |
| StreamDelivery.ScannedAsWritten | internal/server/sse.go:67-71 | the scanner yields the child's lines, LF or CR LF, and an unfinished last line less a CR at its end, unless it outgrew the buffer |
| StreamDelivery.AnyOutputIsWritten | internal/server/sse.go:67-71 | every output is such lines and an unfinished rest |
| StreamDelivery.VisibleConcat | internal/server/sse.go:70-74 | what is visible of an output is decided line by line, in order |
| StreamDelivery.VisibleLine | web/index.html:275-279 | a line is visible unless it is blank, as a message with the text between the blanks at its ends |
| StreamDelivery.RunIsDelivered | internal/server/sse.go:67-114 | for every child output, exit, id and chunking the page's parser dispatches the trimmed non-blank lines in order, at most one error, then done, with an empty buffer; a cut response gives a prefix of that |
| StreamDelivery.BrokenOffIsPrefix | internal/server/sse.go:84-87 | what a broken connection let through of the frames begun is a beginning of the whole response, so `StreamDelivery.RunIsDelivered` applies to it |
| StreamDelivery.PageLearnsOutcome | web/index.html:224-287 | the page breaks off on a complete response if and only if a visible line makes it, and then handles the lines up to that one; otherwise it handles everything and holds the id the server recorded and, on failure, exactly the server's reason |
| StreamDelivery.PageShowsText | web/index.html:224-287 | after a complete response that did not make it break off, in any chunking, the page shows the text blocks of the visible lines in order, or a result's text where none came before it |
| StreamDelivery.NullLineBreaksPage | web/index.html:224-227 | a child that prints `null`: the page handles that line only and never learns the id that the server recorded |
| StreamDelivery.RunMeetsStandard | internal/server/sse.go:70-114 | a whole run reads alike to page and standard if and only if every non-empty output line is plain; closing frames always are |
| StreamDelivery.RunIdSource | internal/server/sse.go:76-80 | the run's id is the pinned one, else the one from the first line that names one, else empty |
| StreamEnds.ResponseEndsWith | internal/server/sse.go:89-114 | over every child and chunking a complete response is messages, then an error event if and only if the reading or the child failed, whose JSON names the reading error in full before the shortened stderr or wait error, then one done event with the run's id |
| StreamEnds.ErrorEventIff | internal/server/sse.go:99-110 | a complete response holds an error event if and only if reading did not end at the end of output or the child did not exit well |
| StreamEnds.PageTellsOutcome | web/index.html:224-287 | the page then shows that reason as the result, or, if nothing failed, the last result message of the child |
| StreamEnds.StderrReachesPage | internal/server/sse.go:103-110 | a child that fails with text on stderr: the page shows that text, cut after 2000 characters with an ellipsis |
| StreamEnds.FirstNameStays | web/index.html:225 | among messages a known session stays and an unknown one becomes the first that is named |
| FileTree.MoreFuel | internal/server/handlers.go:235-247 | once some number of links suffices to resolve a path, every larger number gives the same result |
| FileTree.EvalComposes | internal/server/handlers.go:235-247 | resolving a path is resolving its beginning and then the result with the rest behind it, failure included |
| FileTree.AncestorsResolve | internal/server/handlers.go:240-249 | whatever resolves has only ancestors that resolve |
| FileTree.EvalIsReal | internal/server/handlers.go:235-237 | a resolved path is clean, exists and has no link in it |
| FileTree.LinkMeans | internal/server/handlers.go:235-237 | a link resolves as its target, read from its directory if relative and from the root if absolute |
| LinkLoops.UnresolvedIffBlocked | internal/server/handlers.go:235-237 | a path does not resolve if and only if its walk comes to a missing entry, a file with components left, or a link that is re-entered in its own expansion |
| LinkLoops.LoopNeverResolves | internal/server/handlers.go:235-237 | a path whose walk comes to a link whose expansion leads back to that link never resolves, for loops of any length anywhere in the tree |
| Allowlist.CanonicalIsDeepest | internal/server/handlers.go:229-251 | the canonical form is the deepest resolvable ancestor, resolved, with the rest re-attached; exactly the ancestors down to that one resolve |
| Allowlist.CanonicalIdempotent | internal/server/handlers.go:229-251 | canonicalising a canonical path changes nothing, on any tree |
| Allowlist.Canonicalize | internal/server/handlers.go:233-251 | the upward loop terminates and yields the canonical form |
| Allowlist.UnderTextIsPrefix | internal/server/handlers.go:222 | on clean paths "equal, or begins with root plus separator" is component prefix, except that root `/` covers only `/` |
| Allowlist.ValidatePath | internal/server/handlers.go:210-227 | for any working directory, spelled cleanly or not, accepts exactly the paths whose canonical form is covered by some canonical root, and returns that form |
| Allowlist.AcceptedAgain | internal/server/handlers.go:210-227 | an accepted result is accepted again unchanged |
| Allowlist.AcceptedIsReal | internal/server/handlers.go:208-227 | an accepted result is clean, its existing part is free of links and its next component does not resolve |
| Allowlist.RootSlashAdmitsOnlyItself | internal/server/handlers.go:222 | with `/` as the only root a path is accepted exactly if its canonical form is `/` |
| CleanPaths.CleanIsWalk | internal/server/handlers.go:211-234 | where no link is met, cleaning gives the entry the components lead to, every `..` followed |
| CleanPaths.UpUndoesName | internal/server/handlers.go:234 | a name and the `..` behind it cancel wherever they stand |
| CleanPaths.AbsOfRelative | internal/server/handlers.go:211 | relative text is read from the working directory |
| CleanPaths.LinkFreeAdmission | internal/server/handlers.go:210-227 | an absolute workdir that exists and meets no link is admitted exactly if the entry it leads to is covered by a root, under that entry's name |
| CleanPaths.NoWayOutThroughDotDot | internal/server/handlers.go:210-227 | a sibling of the only root is refused when named through the root and `..` |
| CleanPaths.AdmittedIff | internal/server/handlers.go:216-224 | a path is admitted if and only if some root, both canonical, equals it or, not being `/`, holds it |
| Sessions.StoreSummarisesHistory | internal/session/session.go:86-110 | after any Upserts a record is the summary of its own id's history: creation from the first, last use from the last, each text field the latest non-empty value |
| Sessions.UpsertsKeepOrder | internal/session/session.go:86-110 | under a monotone clock keys stay equal to ids and creation never lies after last use |
| Sessions.Store.Open | internal/session/session.go:40-62 | opens to the stored map, to an empty one for a missing or empty file, and fails exactly if the directory cannot be made, the file cannot be read or its text does not parse |
| Sessions.Store.Get | internal/session/session.go:65-70 | finds a record exactly if its id is known |
| Sessions.Store.List | internal/session/session.go:73-82 | every record once, latest used first |
| Sessions.Store.SnapshotLocked | internal/session/session.go:112-118 | the copy equals the map |
| Sessions.Store.Persist | internal/session/session.go:121-134 | the file becomes the snapshot, or stays as it was if the disk fails |
| Sessions.Store.Upsert | internal/session/session.go:86-110 | memory is updated in any case, the file only on success, and an empty id does nothing |
| StoreCrash.IntactIffNeverDamaging | internal/session/session.go:121-134 | from the opening of any file that opens, over every run with overlap, split writes, failures and crashes, whatever the clock does, the file stays intact if and only if no incomplete neighbour is renamed and nobody writes on after the rename |
| StoreCrash.FileTrailsMemory | internal/session/session.go:86-134 | from any opened file, with unsplit writes, in every interleaving the file loads to an image memory really had, with no extra keys and the same creation times; and with no later use, if the clock never goes back |
| StoreCrash.RestartIsGood | internal/session/session.go:40-62 | a restart that opens the file brings every invariant back, whatever damage came before it |
| StoreCrash.SerialRunIsDurable | internal/session/session.go:121-134 | without overlap a reader always finds the image of the last successful Upsert, whatever crashes or fails in between |
| StoreCrash.SuccessMeansFileEqualsMemory | internal/session/session.go:130-133 | without overlap a successful Upsert leaves the file equal to memory |
| StoreCrash.CrashReadsBeforeOrAfter | internal/session/session.go:40-62 | wherever an Upsert is cut short by a crash, also after failed ones, the restarted store is the last one written with success or the one after this Upsert |
| StoreSchedule.FileIsFreshIff | internal/session/session.go:86-134 | over every run of overlapping Upserts with unsplit writes the file equals memory if the Upsert whose write was renamed last is the one that took the lock last, and, under a clock that moves, only then |
| StoreCrash.OverlapLeavesFileStale | internal/session/session.go:107-109 | two overlapping, successful Upserts after which the file lacks the later session |
| StoreCrash.OverlapCanLoseEverything | internal/session/session.go:126-132 | two overlapping Upserts and a crash after which the store opens empty |
| RunSlots.SlotsConserved | internal/server/handlers.go:122-151 | over every run free slots plus held slots equal the configured number |
| RunSlots.SlotSafety | internal/server/handlers.go:122-151 | never more handlers past the slot than configured, each holding one; a waiting one can be granted a slot exactly while fewer are held; each finished one released what it acquired, once; a busy one never released; release precedes cancel |
| Argv.BuildArgs | internal/runner/options.go:132-236 | refuses what validation refuses, else yields the flags of the request in order and the effective id |
| Argv.ValidatedIff | internal/runner/options.go:67-112 | validation refuses exactly the requests that miss a prompt, an allowed format, mode or effort, a sign, a UUID, a single session choice or valid JSON |
| Argv.ReadShown | internal/runner/options.go:132-236 | reading any options back by the arity table gives the same options, also when values look like flags |
| Argv.DecodeBuilt | internal/runner/options.go:115-236 | decoding the command line gives back the whole normalised request |
| Argv.ReturnedIdIsDecoded | internal/runner/options.go:159-174 | the returned id is the one on the command line, empty exactly with `--continue`, and one choice excludes the others |
| Argv.StreamSpeaksStreamJson | internal/runner/runner.go:197-199 | a streaming request always decodes to verbose stream-json |
| ArgvText.AsWritten | internal/runner/options.go:132-236 | the command line of every request, word by word with literal flag names, in order |
| ArgvText.NoEmptyWord | internal/runner/options.go:132-236 | no word of it is empty if and only if the prompt, the plugin entries and a printed budget are not |
| ArgvText.WordCount | internal/runner/options.go:132-236 | it has one word for every switch that is on and two for every value given, counted from the request |
| ArgvText.DefaultsFilled | internal/runner/options.go:115-174 | decoded, an omitted format is json, the request's model wins over the default, and the session is the resumed, the last, the given or a new one, in that order |
| Handlers.Server.ResolveWorkdir | internal/server/handlers.go:194-206 | the requested workdir or the resumed session's, validated; none is an error |
| Handlers.Server.CheckGates | internal/server/handlers.go:86-120 | the first failing gate refuses the request, otherwise its canonical workdir is returned |
| Handlers.GatesMean | internal/server/handlers.go:86-120 | the gates let through exactly the requests that validate, have an allowed mode, a key if bare, a workdir and plugin directories under a root; each in the canonical form of the workdir it asks for |
| Handlers.RefusalsMean | internal/server/handlers.go:86-120 | each refusal names the first of these missing, in order |
| Handlers.SpecMeans | internal/server/handlers.go:91-120 | decoded, the command line of an admitted request asks for nothing the policy forbids and for what the request says |
| Handlers.Server.CheckPluginDirs | internal/server/handlers.go:112-119 | the loop accepts exactly the lists whose every directory lies under a root |
| Handlers.Server.RunOnce | internal/server/handlers.go:136-151 | a run that is not streamed records its workdir under the pinned, resumed or parsed id, failed or not |
| Handlers.Server.HandleRuns | internal/server/handlers.go:75-151 | a request is refused exactly if it is inadmissible or finds no slot; a child is asked for only within the policy, told by its own command line, and as the request says, in the canonical workdir; the slot count is restored on every exit; the store changes by exactly the request's touch, and not at all for a refused, busy, unstarted or abandoned one |
| Handlers.Server.RunStream | internal/server/sse.go:46-116 | a stream that fails to start or loses its client records nothing; otherwise session and response are those of `StreamRun` |
| Resumption.AloneAsHandled | internal/server/handlers.go:75-151 | a request nothing overlaps changes the ledger as the handler changes the store |
| Resumption.RecordedWhen | internal/server/handlers.go:122-141 | a request is recorded exactly if it may run, has a slot and, if streamed, started and kept its client |
| Resumption.RecordSays | internal/runner/runner.go:166-194 | the record holds workdir, model and time under the resumed, given or new session id, and under the id the output names only with `--continue` |
| Resumption.StoreIsTouchLog | internal/server/handlers.go:106-141 | however requests overlap, the store is the sum of what they recorded, and every workdir recorded or about to be is a canonical one the server accepts again |
| Resumption.RunsKeepRecordsAccepted | internal/server/handlers.go:106-141 | on an unchanged tree every recorded workdir stays acceptable, whatever requests are handled in whatever overlap |
| Resumption.ResumeRunsInRecordedWorkdir | internal/server/handlers.go:194-206 | a resume without a workdir is admitted in exactly the recorded one, and whatever it records is that workdir under that id |
| Resumption.ResumeFollowsLastRun | internal/server/handlers.go:194-206 | after any overlapping requests, refused, busy, abandoned or completed, such a resume runs in W if and only if the last request that recorded the id ran in W |
| Resumption.SessionStaysInWorkdir | internal/server/handlers.go:194-206 | a session recorded in W, with nothing under way on it elsewhere, stays so throughout any later overlapping requests if and only if each of them resumes it without naming a workdir or records it, if at all, in W |
| Resumption.ResumeRunsWhereCreated | internal/runner/runner.go:153-163 | after a run on an id in W and any such later requests, a resume starts the child with W on its command line and that id to resume |
| Resumption.ResumeAfterRun | internal/server/handlers.go:194-206 | whatever is in the store: once a request has recorded its session, a resume of it without a workdir is admitted in that request's workdir |
| Conversation.FirstMessage | web/index.html:197-208 | the first message is admitted if and only if the trimmed workdir of the form lies under a root, and runs in its canonical form with the settings of the form |
| Conversation.LaterMessage | web/index.html:197-208 | a later message resumes the known session and names no workdir |
| Restart.SavedRun | internal/session/session.go:121-134 | once every image that can still reach the file has a session in W, any run that does not damage the file and records the session only in W keeps it so, crashes and overlap included |
| Restart.ResumeSurvivesRestart | internal/session/session.go:40-62 | after a serial Upsert of a session admitted in W was renamed, and any such later run, a restart succeeds, and before and after it a resume without a workdir is admitted in W |
| Conversation.FollowUpRunsInSameWorkdir | web/index.html:197-208 | after a fully relayed streaming run in W, in any chunking, with no line that makes the page break off, and after any later requests that leave the session its workdir, the page's next message is admitted and runs in W |
| RateLimit.OthersDoNotMatter | internal/server/middleware.go:110-123 | a client's answers in a mixed trace are those of its own requests alone |
| RateLimit.WindowBound | internal/server/server.go:128-131 | in any window of T seconds one client gets at most perMinute + perMinute * T / 60 requests through |
| RateLimit.BurstIsQuota | internal/server/server.go:128-131 | a client not seen before, or quiet for a minute, gets at one instant exactly the first perMinute requests through |
| RateLimit.Refills | internal/server/server.go:128-131 | an emptied bucket holds perMinute / 60 tokens per second again, up to perMinute |
| RateLimit.NothingForFree | internal/server/middleware.go:110-123 | a clock that went back adds nothing; health checks, and all requests without a limit, pass and cost nothing |
| RateLimit.SpacedNeverRefused | internal/server/server.go:128-131 | a client that waits 60/perMinute seconds between requests is never refused |
| RateLimit.TokenMeans | internal/server/middleware.go:63-70 | the token is what follows `bearer ` in any case, if anything does |
| RateLimit.SameKeyMeans | internal/server/middleware.go:127-139 | two requests share a key exactly if both carry tokens with the same first eight characters, or neither does and the hosts agree |
| RateLimit.Limiter.Allow | internal/server/middleware.go:116 | one token is taken if there is one, otherwise the bucket is left alone |
| RateLimit.ClientLimiters.Get | internal/server/server.go:119-132 | a key gets one limiter, once, full at first; without a limit there is none |
| RateLimit.ClientLimiters.Pass | internal/server/middleware.go:110-123 | the middleware's decision and the new buckets, in the shared mutable map, are those of the trace model |
| FlagGrammar.ParsedIff | internal/config/config.go:84-92 | the flag parser accepts a line with given assignments and rest if and only if the line is so written: one or two dashes, values inline or next, an end, a plain word or `--` |
| FlagScan.LastWins | internal/config/config.go:84-92 | the value of a flag is that of the assignment with the greatest index |
| FlagScan.StripUnknownExcept | internal/config/config.go:287-304 | the loop keeps exactly the tokens of the wanted flag |
| FlagScan.PreScanReadsConfigIff | internal/config/config.go:287-304 | on every accepted command line the pre-scan takes every word it kept and finds exactly the assignments of `--config` if and only if no word can be mistaken for the flag or its value |
| FlagScan.PreScanAgrees | internal/config/config.go:84-92 | then it finds the value the full parse assigns, the last one winning, and the configuration path is that value or else the environment's |
| FlagScan.DashValueLost | internal/config/config.go:293-298 | for a single separate value the two readings agree exactly if it has no leading dash or reads as the flag itself |
| FlagScan.OtherValueHidesConfig | internal/config/config.go:287-304 | the value `config` of another flag hides a later `--config` from the pre-scan |
| FlagScan.PlainWordDoesNotStopPreScan | internal/config/config.go:287-304 | after a plain word the full parse sees no flag, the pre-scan does |
| FlagScan.SplitList | internal/config/config.go:260-274 | the loop yields the trimmed non-empty pieces |
| FlagScan.ItemsClean | internal/config/config.go:260-274 | every item is trimmed, non-empty and free of the separator used |
| FlagScan.ItemsArePieces | internal/config/config.go:260-274 | every piece with a non-blank character appears as an item, in order and trimmed, and nothing else does |
| FlagScan.SplitOfJoinedList | internal/config/config.go:175-176 | a joined list splits back into itself if and only if its items are trimmed, non-empty, separator-free and a single one has no comma |

## Left out

- Process execution, pipes, kill on cancel and the child's environment: the child's output, scan end and exit are inputs.
- HTTP routing, headers, logging, health, version, metrics, the bearer check and error bodies: nothing that branches on state.
- Scanner buffering: a line over the limit is the input `TooLong`, which drops that line and ends the scan; a read error keeps the unfinished line.
- Byte lengths: `truncate` and the eight-character key prefix count characters here, bytes in the code.
- JSON and YAML parsing in general, UUID parsing and float printing: given functions or opaque text; the store file holds a map, an empty file or text that does not parse.
- The page's tool chips, rendering and other DOM state, and an `error` field that is no text.
- A store file that reads `null`: it opens, and the first Upsert then fails on the missing map.
- FileTree.MoreFuel: Go's limit of 255 links per call is not modelled; with it canonicalisation would not be idempotent, because the count restarts on the second call.
- Volumes and separators of Windows, permissions, hard errors of `Lstat`: only "does not resolve".
- Allowlist.Canonicalize: the branch for an unresolvable root is absent, because the root always resolves.
- Semaphore queueing: any waiting request may be granted a free slot.
- RateLimit.Limiter.Allow: exact reals instead of floating-point tokens and nanoseconds.
- Sessions.Store.List: `sort.Slice` is replaced by an insertion sort with the same contract; its order on equal times is open in the code.
- StoreCrash.IntactIffNeverDamaging: two writers on one inode count as mixing their bytes even if the bytes happen to agree.
- Conversation.FollowUpRunsInSameWorkdir: a session id that is no text is kept by the page and then makes a request body the server cannot decode (`NextRequest` is `None`); the theorem rules it out through its condition on the lines.
- The run and the record of a request are one step each: what the child does in the directory meanwhile is not modelled, and the tree does not change.
- Fork bookkeeping: a forked resume returns the resumed id, as in the code; nothing is claimed about the new session's id.
- Plugin directories: their canonical form is checked and then dropped, the original text goes to the command line, as in the code.
- FlagScan.PreScanAgrees: one direction, because equal values can come from different assignments (a mistaken word before the last `--config`); `FlagScan.PreScanReadsConfigIff` is the exact form.
- Environment and file layers of the configuration, its validation, project-directory discovery and the remaining single-branch helpers.
