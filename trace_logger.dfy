/** The trace-logging post-hook: after a mutating tool ran under an intent it
    builds one audit record (mutation class, target path, content hash and line
    count, revision) and appends it to the log. Git, the clock, the random id and
    the file system are inputs. */
module TraceLogger {
  import opened Text
  import opened HookTypes
  import opened TraceStore

  const MutationTools: seq<string> := ["write_file", "create_file", "edit_file", "apply_fix"]

  const ModelIdentifier: string := "roo-code-ai"

  /** What the hook reads from outside: readable files by path, SHA-256, the
      output of `git rev-parse HEAD` (`None` when it failed), the generated trace id,
      the ISO timestamp, and whether the append to the log file succeeds. */
  datatype LoggerInputs = LoggerInputs(
    files: map<string, string>,
    hash: string -> string,
    gitOutput: Option<string>,
    traceId: string,
    timestamp: string,
    writeOk: bool)

  /** `determineMutationClass`: the class guessed from the tool name alone. */
  function DetermineMutationClass(toolName: string): (r: string)
    ensures r in {"AST_REFACTOR", "INTENT_EVOLUTION", "BUG_FIX"}
    ensures r == "AST_REFACTOR" <==> toolName == "write_file"
    ensures r == "INTENT_EVOLUTION" <==> toolName == "create_file"
  {
    if toolName == "write_file" then "AST_REFACTOR"
    else if toolName == "create_file" then "INTENT_EVOLUTION"
    else "BUG_FIX"
  }

  /** `getGitRevision() || "uncommitted"`, where the revision is the trimmed output. */
  function RevisionId(gitOutput: Option<string>): (r: string)
    ensures r != ""
    ensures gitOutput.None? ==> r == "uncommitted"
    ensures gitOutput.Some? && Trim(gitOutput.value) != "" ==> r == Trim(gitOutput.value)
    ensures gitOutput.Some? && Trim(gitOutput.value) == "" ==> r == "uncommitted"
  {
    if gitOutput.Some? && Trim(gitOutput.value) != "" then Trim(gitOutput.value) else "uncommitted"
  }

  /** The hashed content: the target file when it can be read, else the `content`
      argument, else `text`, else empty. */
  function LoggedContent(args: ToolArgs, files: map<string, string>): string {
    var target := TargetPath(args);
    if target.Some? && target.value in files then files[target.value]
    else Or(Arg(args, "content"), Arg(args, "text")).GetOr("")
  }

  /** The record `logExecution` appends, or `None` when it returns early: the tool
      is not a mutation or there is no truthy intent id. */
  function TraceEntryFor(ctx: HookContext, inputs: LoggerInputs): (r: Option<TraceEntry>)
    ensures r.Some? <==> ctx.toolName in MutationTools && Truthy(ctx.intentId)
    ensures r.Some? ==>
              var e := r.value;
              var content := LoggedContent(ctx.toolArgs, inputs.files);
              && e.id == inputs.traceId && e.timestamp == inputs.timestamp
              && e.vcs == Vcs(RevisionId(inputs.gitOutput))
              && e.intentId == ctx.intentId.value
              && e.mutationClass == Arg(ctx.toolArgs, "mutation_class").GetOr(DetermineMutationClass(ctx.toolName))
              && |e.files| == 1
              && e.files[0].relativePath == PathChain(ctx.toolArgs)
              && |e.files[0].conversations| == 1
              && e.files[0].conversations[0].url == Arg(ctx.toolArgs, "session_id").GetOr("default")
              && e.files[0].conversations[0].contributor == Contributor(AI, ModelIdentifier)
              && e.files[0].conversations[0].ranges
                   == [ContentRange(1, multiset(content)['\n'] + 1, inputs.hash(content))]
              && e.files[0].conversations[0].related == [RelatedReference(IntentRef, ctx.intentId.value)]
  {
    if ctx.toolName !in MutationTools || !Truthy(ctx.intentId) then None
    else
      var id := ctx.intentId.value;
      var content := LoggedContent(ctx.toolArgs, inputs.files);
      SplitCount(content, '\n');
      Some(TraceEntry(
        inputs.traceId,
        inputs.timestamp,
        Vcs(RevisionId(inputs.gitOutput)),
        id,
        Arg(ctx.toolArgs, "mutation_class").GetOr(DetermineMutationClass(ctx.toolName)),
        [FileTrace(PathChain(ctx.toolArgs), [
          ConversationTrace(
            Arg(ctx.toolArgs, "session_id").GetOr("default"),
            Contributor(AI, ModelIdentifier),
            [ContentRange(1, |Split(content, '\n')|, inputs.hash(content))],
            [RelatedReference(IntentRef, id)])])]))
  }

  /** The log after the hook: one record more when the hook logs and the write
      succeeds, otherwise the same log. */
  function LoggedLog(ctx: HookContext, inputs: LoggerInputs, log: seq<LogLine>): (r: seq<LogLine>)
    ensures r == log || (TraceEntryFor(ctx, inputs).Some? && inputs.writeOk && r == log + [Record(TraceEntryFor(ctx, inputs).value)])
    ensures ctx.toolName !in MutationTools || !Truthy(ctx.intentId) || !inputs.writeOk ==> r == log
    ensures TraceEntryFor(ctx, inputs).Some? && inputs.writeOk ==> r == log + [Record(TraceEntryFor(ctx, inputs).value)]
  {
    var entry := TraceEntryFor(ctx, inputs);
    if entry.Some? && inputs.writeOk then log + [Record(entry.value)] else log
  }

  /** `logExecution`: works out the path, then the content (the file wins over the
      arguments when it can be read), builds the record and appends it. A failed
      append is swallowed: the hook never throws. */
  method LogExecution(ctx: HookContext, inputs: LoggerInputs, traces: TraceService)
    modifies traces`log
    ensures traces.log == LoggedLog(ctx, inputs, old(traces.log))
  {
    if ctx.toolName !in MutationTools {
      return;
    }
    if !Truthy(ctx.intentId) {
      return;
    }
    var mutationClass := Arg(ctx.toolArgs, "mutation_class").GetOr(DetermineMutationClass(ctx.toolName));
    var filePath := PathChain(ctx.toolArgs);
    var content := Or(Arg(ctx.toolArgs, "content"), Arg(ctx.toolArgs, "text")).GetOr("");
    if Truthy(filePath) && filePath.value in inputs.files {
      content := inputs.files[filePath.value];
    }
    var contentHash := inputs.hash(content);
    var entry := TraceEntry(
      inputs.traceId,
      inputs.timestamp,
      Vcs(RevisionId(inputs.gitOutput)),
      ctx.intentId.value,
      mutationClass,
      [FileTrace(filePath, [
        ConversationTrace(
          Arg(ctx.toolArgs, "session_id").GetOr("default"),
          Contributor(AI, ModelIdentifier),
          [ContentRange(1, |Split(content, '\n')|, contentHash)],
          [RelatedReference(IntentRef, ctx.intentId.value)])])]);
    assert TraceEntryFor(ctx, inputs) == Some(entry);
    var _ := traces.AppendTrace(entry, inputs.writeOk);
  }

  /** The range always covers at least one line: `end_line` counts the line breaks
      of the content plus one, so an empty content still has one line. */
  lemma RangeCoversContent(ctx: HookContext, inputs: LoggerInputs)
    requires TraceEntryFor(ctx, inputs).Some?
    ensures var range := TraceEntryFor(ctx, inputs).value.files[0].conversations[0].ranges[0];
            && range.startLine == 1 <= range.endLine
            && range.endLine == |Split(LoggedContent(ctx.toolArgs, inputs.files), '\n')|
  {
    SplitCount(LoggedContent(ctx.toolArgs, inputs.files), '\n');
  }

  /** Round trip: a record the hook wrote is the most recent one read back for the
      intent, whatever positive limit the reader asks for. */
  lemma LoggedTraceIsReadBack(ctx: HookContext, inputs: LoggerInputs, log: seq<LogLine>, limit: int)
    requires TraceEntryFor(ctx, inputs).Some? && inputs.writeOk && limit >= 1
    ensures var r := TracesByIntent(LoggedLog(ctx, inputs, log), ctx.intentId.value, limit);
            |r| >= 1 && r[|r| - 1] == TraceEntryFor(ctx, inputs).value
  {
    var entry := TraceEntryFor(ctx, inputs).value;
    assert entry.intentId == ctx.intentId.value;
    assert LoggedLog(ctx, inputs, log) == log + [Record(entry)];
    AppendedTraceIsReturned(log, entry, limit);
  }
}
