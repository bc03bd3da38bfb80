# Hook control plane of roo-zoe, in Dafny

This project models the hook-based authorization and audit layer that wraps every
tool call an AI coding agent makes. `HookManager.executeToolWithHooks` builds a
context for the call. Four pre-hooks then run in order, and the first failure stops
the call:

- intent validation: the intent must exist and not be completed;
- scope enforcement: the target must lie inside the intent's `owned_scope`, and
  the caller's hash of the file must not be stale;
- the command permission gate: a command classified as destructive is put to the user;
- context injection: the intent's summary and recent traces are added to the
  tool arguments.

If every pre-hook passes, the tool runs. Then the post-hooks run:

- the trace logger appends an audit record to `agent_trace.jsonl`;
- the intent mapper records the file under the intent in `intent_map.md`.

The two services the hooks use are modelled as classes whose fields are their
state:

- `TraceStore.TraceService`: the append-only log and its filtered, limited read;
- `IntentRegistry.IntentService`: the intents table, the file-to-intent map, and
  the two files it keeps.

Each hook is a pure function from the context and what it reads (the registry, the
log, the file system, the user's answer) to a result and the context it leaves. The
hook chains are folds over those functions. The manager's methods are proved equal
to those folds, and the properties are proved about the folds.

Modules, one per file:

| file | module | what it holds |
|---|---|---|
| `text.dfy` | `Text` | trim, ASCII lower-casing, split/join and containment, with their laws |
| `hook_types.dfy` | `HookTypes` | contexts, hook results, intents, trace entries, truthy argument reads |
| `security.dfy` | `Security` | `CommandClassifier` and its three destructive patterns |
| `intent_selector.dfy` | `IntentSelector` | `validateIntentSelection` |
| `scope_enforcer.dfy` | `ScopeEnforcer` | `enforceScope` |
| `permission_gate.dfy` | `PermissionGate` | `checkPermissions` |
| `trace_store.dfy` | `TraceStore` | `TraceService` |
| `context_injector.dfy` | `ContextInjector` | `buildIntentContextBlock`, `injectContext` |
| `trace_logger.dfy` | `TraceLogger` | `logExecution` |
| `intent_map_doc.dfy` | `IntentMapDoc` | the grammar, parser and text update of `intent_map.md` |
| `intent_registry.dfy` | `IntentRegistry` | `IntentService` |
| `intent_mapper.dfy` | `IntentMapper` | `updateMap` |
| `orchestrator.dfy` | `Orchestrator` | `HookManager`, the pre/post chains and their laws |

Behaviours of the code the model keeps:

- `classify` never yields the risk level "unknown": an unmatched command is "safe".
- A dismissed permission dialog lets the command run.
- An intent id that the registry does not hold passes the scope check.
- Exceptions from pre-hooks propagate out of `runPreHooks` and `executeToolWithHooks`.
  This is the `HookThrew` outcome.
- `updateMap` runs for every tool, not only for mutations.
- An `active_intents` value that cannot be iterated makes `initialize` write the
  template over the store file.
- Reloading never removes intents from memory.

## Model

| member | source | states |
|---|---|---|
| Security.Classify | src/hooks/security/CommandClassifier.ts:9-23 | the whitelist is consulted first ("whitelist", safe); the result is destructive, with category "destructive", iff the normal form is not trusted and holds `\brm\s+-rf\b`, `\bshutdown\b` or `\bformat\b`; a blank command is "empty"; any other command is "unknown" and safe; "unknown" is never the risk level |
| Security.NormalizedClassifiesAlike | src/hooks/security/CommandClassifier.ts:10 | normalising is idempotent, so a command and its normal form classify the same |
| Security.TrustedSpellingsAreSafe | src/hooks/security/CommandClassifier.ts:10-12 | once a normal form is trusted, every spelling differing only in case or surrounding space is safe, category "whitelist" |
| Security.NormalFormOf | src/hooks/security/CommandClassifier.ts:10 | a trimmed command without capitals is its own normal form |
| Security.NormalizeKeepsLeadingWord | src/hooks/security/CommandClassifier.ts:10 | normalising keeps a leading lower-case word in front, with the word boundary after it |
| Security.RmRfInFront | src/hooks/security/CommandClassifier.ts:16 | a normal form starting with the word `rm -rf` matches the first destructive pattern |
| Security.RmRfIsDestructive | src/hooks/security/CommandClassifier.ts:16-17 | `rm -rf` followed by anything that ends the word is classified destructive |
| Security.ShutdownIsDestructive | src/hooks/security/CommandClassifier.ts:16-17 | `shutdown` followed by anything that ends the word is classified destructive |
| Security.CommandClassifier.constructor | src/hooks/security/CommandClassifier.ts:7 | a new classifier trusts nothing |
| Security.CommandClassifier.AddToWhitelist | src/hooks/security/CommandClassifier.ts:25-27 | adds exactly the normal form of the command (idempotently), after which every spelling of it classifies as safe |
| IntentSelector.ResolvedIntentId | packages/core/src/hooks/pre/IntentSelector.ts:15 | a truthy `tool_args.intent_id` wins over the context's id; the resolved id is never empty |
| IntentSelector.ValidateIntentSelection | packages/core/src/hooks/pre/IntentSelector.ts:6-49 | other tools pass; a listed tool with no id, an unknown id or a completed intent fails with the source's message, context untouched, never asking for a human; a registry read failure throws; otherwise it passes and writes the resolved id into the context |
| ScopeEnforcer.CheckTarget | src/hooks/pre/ScopeEnforcer.ts:36-74 | a stale hash fails with the stale message before scope is looked at; otherwise a path matching no pattern (as given or under `**/`) fails with the violation message, and a matching one passes |
| ScopeEnforcer.EnforceScope | src/hooks/pre/ScopeEnforcer.ts:8-75 | non-write tools pass; a write without an intent fails; a registry read failure throws; an unknown intent or a missing target passes; otherwise the result is the target check; the context never changes and no failure asks for a human |
| ScopeEnforcer.ViolationMessageNamesEverything | src/hooks/pre/ScopeEnforcer.ts:69 | the violation message names the intent, the denied path and every granted pattern |
| PermissionGate.CheckPermissions | src/hooks/pre/PermissionGate.ts:5-47 | fails iff a command tool's command is destructive and the answer is Deny; the failure asks for a human and names the command; every other answer, including none, passes |
| PermissionGate.RmRfIsPutToTheUser | src/hooks/pre/PermissionGate.ts:13-38 | for an `rm -rf` command of a shell tool, the gate fails exactly when the user denies it |
| ContextInjector.BlockLines | src/hooks/pre/ContextInjector.ts:8-25 | the block's lines in order: header, intent line, constraints with bullets, scope with bullets, "Recent traces:" and one line per trace only when there are traces, footer; with the exact count |
| ContextInjector.BuildIntentContextBlock | src/hooks/pre/ContextInjector.ts:8-27 | the lines built by pushing, joined with line breaks, equal the specified block |
| ContextInjector.InjectContext | src/hooks/pre/ContextInjector.ts:29-59 | no id or an unknown intent passes untouched; a registry failure becomes a plain failure with its message; otherwise the block of the intent and at most five latest traces is returned and stored under `intent_context`, with nothing else changed |
| ContextInjector.BlockSplitsIntoItsLines | src/hooks/pre/ContextInjector.ts:26 | with single-line fields, splitting the block at line breaks gives back exactly its lines |
| ContextInjector.InjectedBlockIsBounded | src/hooks/pre/ContextInjector.ts:45-55 | the injected block has at most 11 lines plus one per constraint and scope pattern, and is the value stored in the arguments |
| TraceStore.Matching | packages/core/src/hooks/trace/TraceService.ts:50-59 | the matches are records of the asked intent and no more than the log's lines |
| TraceStore.MatchingAppend | packages/core/src/hooks/trace/TraceService.ts:50-59 | filtering distributes over concatenation, so matches keep log order |
| TraceStore.MatchingComplete | packages/core/src/hooks/trace/TraceService.ts:53-55 | every well-formed record of the intent is among the matches |
| TraceStore.TracesByIntent | packages/core/src/hooks/trace/TraceService.ts:44-64 | the result is a suffix of the matches, of length `min(limit, matches)` for a positive limit and all matches for limit 0 |
| TraceStore.AppendedTraceIsReturned | packages/core/src/hooks/trace/TraceService.ts:35-64 | round trip: a record appended under an intent is the last one read back for it, for any positive limit |
| TraceStore.TraceService.constructor | packages/core/src/hooks/trace/TraceService.ts:11-13 | the service starts over the log already on disk |
| TraceStore.TraceService.AppendTrace | packages/core/src/hooks/trace/TraceService.ts:35-42 | a successful write adds exactly the one record at the end; a failed one leaves the log and is reported |
| TraceStore.TraceService.GetTracesByIntent | packages/core/src/hooks/trace/TraceService.ts:44-64 | the loop's result is the specified read, and every trace returned belongs to the intent |
| TraceLogger.DetermineMutationClass | packages/core/src/hooks/post/TraceLogger.ts:21-26 | "AST_REFACTOR" iff `write_file`, "INTENT_EVOLUTION" iff `create_file`, otherwise "BUG_FIX" |
| TraceLogger.RevisionId | packages/core/src/hooks/post/TraceLogger.ts:12-19 | the trimmed git output when it is non-empty; "uncommitted" when git failed or printed only white space; never empty |
| TraceLogger.TraceEntryFor | packages/core/src/hooks/post/TraceLogger.ts:28-98 | a record is built iff the tool mutates and the intent id is truthy; every field is as the source assembles it, with `relative_path` the raw value of the path chain and `end_line` the number of line breaks in the content plus one |
| HookTypes.PathChain | packages/core/src/hooks/post/TraceLogger.ts:45 | the value of the chain `file_path`, else `path`, else `file`: the truthy target when there is one, otherwise "" when `file` is present (and empty), otherwise nothing; truthy exactly when the truthy read finds a target |
| TraceLogger.LoggedLog | packages/core/src/hooks/post/TraceLogger.ts:28-105 | a mutation under a truthy intent whose write succeeds appends exactly its record; the log is unchanged for non-mutations, missing intents and failed writes |
| TraceLogger.LogExecution | packages/core/src/hooks/post/TraceLogger.ts:28-105 | the service's log afterwards is the specified log |
| TraceLogger.RangeCoversContent | packages/core/src/hooks/post/TraceLogger.ts:81-87 | the range starts at line 1 and covers every line of the hashed content, at least one |
| TraceLogger.LoggedTraceIsReadBack | packages/core/src/hooks/post/TraceLogger.ts:100-101 | a record the hook wrote is the newest one read back for its intent |
| IntentMapDoc.HeadingCapture | packages/core/src/hooks/intent/IntentService.ts:72 | a captured heading is an intent id (`INT-` and digits) on a line starting with "##" |
| IntentMapDoc.BestEnd | packages/core/src/hooks/intent/IntentService.ts:78 | the greedy capture's end is the largest one followed by white space and "(" |
| IntentMapDoc.BulletCapture | packages/core/src/hooks/intent/IntentService.ts:78 | a bullet is captured only from a line starting with "-" |
| IntentMapDoc.ParseLines | packages/core/src/hooks/intent/IntentService.ts:71-82 | the loader keeps every key it starts from and maps only to intent ids (or leaves old values) |
| IntentMapDoc.FindLine | packages/core/src/hooks/intent/IntentService.ts:133 | `findIndex`: the first line holding the needle, or -1 when none does |
| IntentMapDoc.SectionEnd | packages/core/src/hooks/intent/IntentService.ts:137-140 | the first line from the start that begins with "##", or the end of the document |
| IntentMapDoc.WithSection | packages/core/src/hooks/intent/IntentService.ts:115-126 | the document read (or the default) holds the heading afterwards |
| IntentMapDoc.WithSectionKeepsText | packages/core/src/hooks/intent/IntentService.ts:115-126 | the document read (or the default) is kept as the prefix: unchanged when it already holds `## id`, otherwise followed by exactly "\n## id\n\n" |
| IntentMapDoc.UpdatedMapText | packages/core/src/hooks/intent/IntentService.ts:113-145 | the written text always holds the intent's heading |
| IntentMapDoc.SpliceEntry | packages/core/src/hooks/intent/IntentService.ts:141-142 | splicing the entry in keeps the heading line |
| IntentMapDoc.UpdateIsIdempotent | packages/core/src/hooks/intent/IntentService.ts:124-130 | a second update with the same intent and path, at any time, leaves the document as the first wrote it |
| IntentMapDoc.InsertedAtSectionEnd | packages/core/src/hooks/intent/IntentService.ts:132-142 | when the bullet is inserted, the new lines are the old ones with the bullet placed at the end of the intent's section |
| IntentMapDoc.HeadingOf | packages/core/src/hooks/intent/IntentService.ts:72-78 | a heading the updater writes is read back as its intent id, and is not a bullet |
| IntentMapDoc.BulletOf | packages/core/src/hooks/intent/IntentService.ts:78 | a bullet the updater writes is read back as its path, for a one-line path and a timestamp without "(" |
| IntentMapDoc.GreedyBullet | packages/core/src/hooks/intent/IntentService.ts:78 | with one space after "-", the capture runs to the last end followed by white space and "(" |
| IntentMapDoc.TryLeadFound | packages/core/src/hooks/intent/IntentService.ts:78 | with `a` leading spaces tried, the capture is the text from after them to the greedy end |
| IntentMapDoc.BestEndStopsAt | packages/core/src/hooks/intent/IntentService.ts:78 | the greedy search stops at the last candidate end |
| IntentMapDoc.EntryIsNoHeading | packages/core/src/hooks/intent/IntentService.ts:72 | an entry line is never taken for a heading |
| IntentMapDoc.PlainLines | packages/core/src/hooks/intent/IntentService.ts:72-81 | blank lines and the default title line are neither headings nor bullets |
| IntentMapDoc.NonNumericHeadingIgnored | packages/core/src/hooks/intent/IntentService.ts:72 | "## INT-TEST" is not a heading, since the id must be digits |
| IntentMapDoc.ParseLinesAppend | packages/core/src/hooks/intent/IntentService.ts:71-82 | the loader over two blocks of lines is the loader over the second from the state the first leaves |
| IntentMapDoc.SectionKeepsMapping | packages/core/src/hooks/intent/IntentService.ts:71-82 | inside a section the current intent stays, and a path mapped to it stays mapped to it |
| IntentMapDoc.SectionBulletMaps | packages/core/src/hooks/intent/IntentService.ts:78-81 | every bullet of a section maps its path to the section's intent |
| IntentMapDoc.SectionUnderHeading | packages/core/src/hooks/intent/IntentService.ts:71-82 | a heading followed by its section maps every bullet's path to the heading's intent, whatever was parsed before |
| IntentMapDoc.OtherLinesKeepMapping | packages/core/src/hooks/intent/IntentService.ts:71-82 | lines with no bullet for a path leave that path's mapping as it was |
| IntentMapDoc.SectionThenOtherLines | packages/core/src/hooks/intent/IntentService.ts:71-82 | a heading, its section and later lines that do not name the bullet's path again leave the bullet under the heading's intent |
| IntentMapDoc.BulletMapsToLatestHeading | packages/core/src/hooks/intent/IntentService.ts:71-82 | in any document, a bullet maps its path to the intent of the latest heading above it, unless a later bullet names the same path |
| IntentMapDoc.NoHeadingNoEntries | packages/core/src/hooks/intent/IntentService.ts:79 | bullets before any heading are ignored |
| IntentMapDoc.NoDoubleHashLacksHeading | packages/core/src/hooks/intent/IntentService.ts:124 | a text without "##" gets the section added |
| IntentMapDoc.NoDashSpaceLacksEntry | packages/core/src/hooks/intent/IntentService.ts:130 | a text without "- " gets the entry added |
| IntentMapDoc.FreshSectionAdded | packages/core/src/hooks/intent/IntentService.ts:119-126 | a missing map becomes the default title followed by the new section |
| IntentMapDoc.FreshDocument | packages/core/src/hooks/intent/IntentService.ts:113-145 | from a missing map, the text written is the fresh section's lines followed by the entry line |
| IntentMapDoc.FreshDocumentLines | packages/core/src/hooks/intent/IntentService.ts:132-142 | splitting that text gives back exactly those lines |
| IntentMapDoc.ParseFreshLines | packages/core/src/hooks/intent/IntentService.ts:68-82 | the loader, on those lines, maps the path to the intent of the heading above it |
| IntentMapDoc.RoundTripFromMissing | packages/core/src/hooks/intent/IntentService.ts:62-147 | round trip: a file added to a missing map is loaded back under its intent, and every other entry keeps its value |
| IntentRegistry.Upsert | packages/core/src/hooks/intent/IntentService.ts:40 | `Map.set`: the intent is stored under its id; a new id goes last and a known one keeps its place; the table stays well formed |
| IntentRegistry.Values | packages/core/src/hooks/intent/IntentService.ts:107 | the snapshot lists the stored intents in insertion order |
| IntentRegistry.MergeAll | packages/core/src/hooks/intent/IntentService.ts:39-41 | merging loaded records keeps the table well formed |
| IntentRegistry.LastById | packages/core/src/hooks/intent/IntentService.ts:39-41 | exactly the ids among the loaded records are keys |
| IntentRegistry.LastByIdHoldsLast | packages/core/src/hooks/intent/IntentService.ts:39-41 | each loaded id holds the last record with that id |
| IntentRegistry.MergeAllOverlays | packages/core/src/hooks/intent/IntentService.ts:39-41 | merging overlays the last record of each id on the table |
| IntentRegistry.MergeAllKeepsOrder | packages/core/src/hooks/intent/IntentService.ts:39-41 | records of known ids keep the order and the set of ids |
| IntentRegistry.MergeAllNeverRemoves | packages/core/src/hooks/intent/IntentService.ts:34-42 | reloading never removes an intent; every loaded id ends up holding the last record with that id; intents absent from the file stay as they were |
| IntentRegistry.MergeAllIdempotent | packages/core/src/hooks/intent/IntentService.ts:34-42 | reloading an unchanged store file changes nothing |
| IntentRegistry.SnapshotReloads | packages/core/src/hooks/intent/IntentService.ts:104-111 | each prefix of the written snapshot reloads to the same table |
| IntentRegistry.SnapshotHoldsAll | packages/core/src/hooks/intent/IntentService.ts:104-111 | round trip: the snapshot holds every stored intent and reloading it gives the same table |
| IntentRegistry.SectionAdded | packages/core/src/hooks/intent/IntentService.ts:115-126 | the content read (or the default) with the section appended when missing |
| IntentRegistry.MapTextWithEntry | packages/core/src/hooks/intent/IntentService.ts:115-143 | the statement sequence builds exactly the specified map text |
| IntentRegistry.FindSectionEnd | packages/core/src/hooks/intent/IntentService.ts:137-140 | the loop stops at the first line from the start that begins with "##", or at the end |
| IntentRegistry.IntentService.constructor | packages/core/src/hooks/intent/IntentService.ts:9-14 | a service over the two files, with nothing loaded |
| IntentRegistry.IntentService.Initialize | packages/core/src/hooks/intent/IntentService.ts:25-60 | loadable records are merged in; an unloadable store is replaced by the template, and a failing template write escapes before the map is loaded; otherwise the map is loaded |
| IntentRegistry.IntentService.MergeRecords | packages/core/src/hooks/intent/IntentService.ts:39-41 | the loop's table is the merge of all the records |
| IntentRegistry.IntentService.LoadIntentMap | packages/core/src/hooks/intent/IntentService.ts:62-86 | the mapping afterwards is the specified parse of the file, and unchanged when the file cannot be read |
| IntentRegistry.IntentService.GetIntent | packages/core/src/hooks/intent/IntentService.ts:88-92 | the reload leaves the table merged with the loadable store, the template written over an unloadable one, and the file map reparsed; a failing template write raises its message and leaves the map as it was; then the intent is found iff its id is stored, so an id that was known or that the store file holds is found |
| IntentRegistry.IntentService.UpdateIntent | packages/core/src/hooks/intent/IntentService.ts:94-111 | the intent is upserted and, when the write succeeds, the whole table is written back in order |
| IntentRegistry.IntentService.AddFileToIntentMap | packages/core/src/hooks/intent/IntentService.ts:99-102 | the path maps to the intent, replacing any earlier association, and the map text is updated when the write succeeds |
| IntentRegistry.IntentService.UpdateIntentMapMarkdown | packages/core/src/hooks/intent/IntentService.ts:113-147 | the map file becomes the specified text when the write succeeds, and is unchanged otherwise |
| IntentMapper.Delegated | src/hooks/post/IntentMapper.ts:7-13 | the hook delegates iff the intent id is truthy and a target path is given, passing both unchanged and non-empty |
| IntentMapper.UpdateMap | src/hooks/post/IntentMapper.ts:7-17 | without an id or path nothing changes; otherwise the registry maps the path to the intent and updates the map text when the write succeeds |
| Orchestrator.PreChain | src/hooks/HookManager.ts:74-84 | a chain that stops always reports a failure |
| Orchestrator.PreChainAppend | src/hooks/HookManager.ts:74-84 | running two chains in sequence is running the first, then the second only if all of the first passed |
| Orchestrator.PreChainStopsAtFirstFailure | src/hooks/HookManager.ts:74-84 | fail-fast: a stopped chain stopped at the first failing hook, after every earlier hook passed, and reports that hook's result |
| Orchestrator.BuiltInChainKeepsToolName | src/hooks/HookManager.ts:74-84 | the built-in hooks never change which tool the context is for, nor its lifecycle state |
| Orchestrator.DefaultChainEndsInAnalysis | src/hooks/HookManager.ts:54-84 | the default chain, run on a fresh call's context, leaves the state at PRE_HOOK_ANALYSIS |
| Orchestrator.HumanStopOnlyFromDeniedCommand | src/hooks/HookManager.ts:32-37 | with the default hooks, a stop asking for a human comes only from a command tool whose command the user denied |
| Orchestrator.UnlistedToolPassesUntouched | src/hooks/HookManager.ts:32-37 | a tool on none of the hooks' lists, called without an intent, passes the default chain with its context unchanged |
| Orchestrator.StartContext | src/hooks/HookManager.ts:54-71 | a call starts in PRE_HOOK_ANALYSIS with the tool's name and arguments, pending authorization, and a truthy `args.intent_id`, else the previous truthy id, else null |
| Orchestrator.PostChainAppendsOnly | src/hooks/HookManager.ts:97-105 | the post-hooks only append to the trace log, at most one record each, and never drop a file mapping (a custom post-hook is modelled as having no effect) |
| Orchestrator.DefaultPostHooksLogTheWrite | src/hooks/HookManager.ts:39-41 | with the default post-hooks, a logged write is the newest trace read back for its intent |
| Orchestrator.HookManager.constructor | src/hooks/HookManager.ts:17-42 | the manager starts idle, with the initial context and the default hooks in their order |
| Orchestrator.HookManager.RegisterPreHook | src/hooks/HookManager.ts:44-46 | the hook is appended after the existing ones |
| Orchestrator.HookManager.RegisterPostHook | src/hooks/HookManager.ts:48-50 | the hook is appended after the existing ones |
| Orchestrator.HookManager.SetIntent | src/hooks/HookManager.ts:111-113 | only the current intent id changes |
| Orchestrator.HookManager.GetCurrentContext | src/hooks/HookManager.ts:115-117 | the copy equals the current context |
| Orchestrator.HookManager.RunPreHooks | src/hooks/HookManager.ts:120-128 | the loop's outcome is the fail-fast chain over the registered hooks |
| Orchestrator.HookManager.RunPostHook | src/hooks/HookManager.ts:98-105 | one post-hook changes the log and the registry's map as specified |
| Orchestrator.HookManager.RunPostHooks | src/hooks/HookManager.ts:130-138 | every post-hook runs once, in order, and the state afterwards is the post chain's |
| Orchestrator.HookManager.BeginCall | src/hooks/HookManager.ts:52-84 | the fresh context is the specified start context, and the pre-hooks run on it; with the default hooks their outcome's context is in PRE_HOOK_ANALYSIS |
| Orchestrator.HookManager.ExecuteToolWithHooks | src/hooks/HookManager.ts:52-109 | when all pre-hooks pass, the tool runs once, every post-hook runs, the tool's result (or its error) is returned and the state ends at IDLE; a human-intervention failure sets HUMAN_INTERVENTION and raises that error; any other failure or hook exception raises, an ordinary failure leaving the state at PRE_HOOK_ANALYSIS with the default hooks; in those cases the tool and post-hooks do not run and nothing is logged |

## Left out

- The file system, `mkdir`, YAML/JSON (de)serialisation, git, the clock and random ids are inputs. Examples are the `StoreFile` cases, the log as parsed lines, `LoggerInputs`, the map text as an optional string, and write-success flags.
- SHA-256, `path.normalize` and `minimatch` are function parameters (`PathLibrary`, `LoggerInputs.hash`), because they are library code.
- `TraceService`'s promise write queue and all concurrency are not modelled. Appends apply one at a time, in call order.
- The `vscode` warning dialog is an input: the optional user answer. Its text is not modelled.
- Singletons and `getInstance` are not modelled. The services are objects passed to the methods that use them.
- The pre-hooks read the registry as a `RegistryRead` value. `getIntent`'s reload is modelled on `IntentService.GetIntent`, but its side effect on the service is not threaded through the pre-hook chain.
- Tool arguments are string-valued, so non-string or `null` values are not modelled. The object aliasing between `currentContext` and `tool_args` is not modelled.
- A custom pre-hook is a function of the context (`CustomPre`). A custom post-hook (`CustomPost`) is modelled as having no effect on the context, the trace log, the file map or the map text. A throw from it is caught and only logged (`HookManager.ts:98-103`), so it has no observable effect either. In the source it receives the live context and the tool result and could change any of these.
- Orchestrator.PostChainAppendsOnly: holds for a chain with custom post-hooks only because those are modelled as having no effect.
- Lower-casing is ASCII-only: `toLowerCase` of non-ASCII letters is not modelled. White space and line terminators follow the ECMAScript sets.
- Malformed intent records (such as a missing `owned_scope`) are not modelled. Intents are always well-typed.
- IntentMapDoc.BulletCapture: does not promise that the captured path lies within one line. Only the round trip for paths the updater writes is proved (`IntentMapDoc.BulletOf`).
- Several files the hooks import are not part of this model: `src/hooks/pre/IntentSelector` and `src/hooks/post/TraceLogger` (imported by `HookManager.ts:7-8`), and `src/hooks/intent/IntentService` and `src/hooks/trace/TraceService` (imported by `ScopeEnforcer.ts:2`, `ContextInjector.ts:2-3` and `IntentMapper.ts:2`). The `packages/core` versions are modelled in their place.
- The `console.warn`/`console.error` diagnostics are not modelled (`TraceLogger.ts:37, 103`, `IntentMapper.ts:15`, `HookManager.ts:101, 135`).
- `selectActiveIntentTool`, the demo, the scripts and the package entry points are not part of this model.
