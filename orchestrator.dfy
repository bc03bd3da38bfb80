/** The hook orchestrator: every tool call runs the pre-hooks in registration
    order, stopping at the first failure; then the tool, whose exception is turned
    into an `{error}` value; then every post-hook, whose failures are swallowed.
    The intent id of one call carries over to the next. */
module Orchestrator {
  import opened HookTypes
  import opened TraceStore
  import opened IntentMapDoc
  import opened IntentRegistry
  import IntentSelector
  import ScopeEnforcer
  import PermissionGate
  import ContextInjector
  import TraceLogger
  import IntentMapper

  /** A registered pre-hook: one of the four built-in ones, or a caller's own,
      given by what it does to a context. */
  datatype PreHook =
    | ValidateIntentSelection
    | EnforceScope
    | CheckPermissions
    | InjectContext
    | CustomPre(run: HookContext -> PreStep)

  /** A registered post-hook: one of the two built-in ones, or a caller's own, which
      touches none of the modelled state (a throw from it is caught and only logged). */
  datatype PostHook = LogExecution | UpdateMap | CustomPost

  const DefaultPreHooks: seq<PreHook> := [ValidateIntentSelection, EnforceScope, CheckPermissions, InjectContext]

  const DefaultPostHooks: seq<PostHook> := [LogExecution, UpdateMap]

  /** Everything the hooks read from outside during one call: the registry as the
      pre-hooks' reload finds it, the files as they are before the tool runs, the
      path libraries, the user's answer to the permission dialog, what the trace
      logger reads after the tool ran, and the clock and outcome of the map write. */
  datatype Env = Env(
    registry: RegistryRead,
    files: map<string, string>,
    lib: ScopeEnforcer.PathLibrary,
    answer: Option<PermissionGate.Answer>,
    logger: TraceLogger.LoggerInputs,
    mapTimestamp: string,
    mapWriteOk: bool)

  /** What the wrapped tool does when called. */
  datatype Executor = Returns(value: string) | Throws(message: string)

  /** How `executeToolWithHooks` ends: the tool's result, one of the two errors it
      raises for a failed pre-hook, or the exception a pre-hook let escape. */
  datatype CallOutcome =
    | Completed(result: ToolResult)
    | HumanInterventionRequiredError(message: string)
    | HookExecutionError(message: string)
    | HookThrew(message: string)

  /** How a run of pre-hooks ends: all passed, stopped at a failure, or a hook threw.
      Each carries the context as it stood then. */
  datatype PreOutcome =
    | AllPassed(context: HookContext)
    | Stopped(result: HookResult, context: HookContext)
    | Raised(message: string, context: HookContext)

  const InitialContext: HookContext := HookContext(Idle, None, "", map[], AuthorizationStatus.Pending)

  /** One pre-hook on a context. */
  function RunPre(hook: PreHook, ctx: HookContext, env: Env, log: seq<LogLine>): PreStep {
    match hook
    case ValidateIntentSelection => IntentSelector.ValidateIntentSelection(ctx, env.registry)
    case EnforceScope => ScopeEnforcer.EnforceScope(ctx, env.registry, env.files, env.lib)
    case CheckPermissions => Returned(PermissionGate.CheckPermissions(ctx, env.answer), ctx)
    case InjectContext => ContextInjector.InjectContext(ctx, env.registry, log)
    case CustomPre(run) => run(ctx)
  }

  /** The pre-hooks in order, each on the context the previous one left. */
  function PreChain(hooks: seq<PreHook>, ctx: HookContext, env: Env, log: seq<LogLine>): (r: PreOutcome)
    ensures r.Stopped? ==> r.result.Failure?
    decreases |hooks|
  {
    if hooks == [] then AllPassed(ctx)
    else
      match RunPre(hooks[0], ctx, env, log)
      case Threw(message) => PreOutcome.Raised(message, ctx)
      case Returned(result, next) =>
        if result.Failure? then Stopped(result, next) else PreChain(hooks[1..], next, env, log)
  }

  /** Running `a` then `b` is running `a`, and then `b` only if all of `a` passed. */
  lemma {:induction false} PreChainAppend(a: seq<PreHook>, b: seq<PreHook>, ctx: HookContext, env: Env, log: seq<LogLine>)
    ensures PreChain(a + b, ctx, env, log)
            == match PreChain(a, ctx, env, log)
               case AllPassed(next) => PreChain(b, next, env, log)
               case other => other
    decreases |a|
  {
    if a != [] {
      assert (a + b)[0] == a[0] && (a + b)[1..] == a[1..] + b;
      match RunPre(a[0], ctx, env, log)
      case Threw(_) =>
      case Returned(result, next) =>
        if result.Success? {
          PreChainAppend(a[1..], b, next, env, log);
        }
    } else {
      assert a + b == b;
    }
  }

  /** Fail-fast: a stopped chain stopped at the first failing hook, every earlier
      hook having passed, and that hook's result is the one reported. */
  lemma {:induction false} PreChainStopsAtFirstFailure(hooks: seq<PreHook>, ctx: HookContext, env: Env, log: seq<LogLine>)
    requires PreChain(hooks, ctx, env, log).Stopped?
    ensures exists k :: 0 <= k < |hooks| && PreChain(hooks[..k], ctx, env, log).AllPassed?
              && RunPre(hooks[k], PreChain(hooks[..k], ctx, env, log).context, env, log)
                 == Returned(PreChain(hooks, ctx, env, log).result, PreChain(hooks, ctx, env, log).context)
    decreases |hooks|
  {
    var r := PreChain(hooks, ctx, env, log);
    assert hooks[..0] == [];
    match RunPre(hooks[0], ctx, env, log)
    case Returned(result, next) =>
      if result.Failure? {
        assert RunPre(hooks[0], PreChain(hooks[..0], ctx, env, log).context, env, log) == Returned(r.result, r.context);
      } else {
        PreChainStopsAtFirstFailure(hooks[1..], next, env, log);
        var k :| 0 <= k < |hooks[1..]| && PreChain(hooks[1..][..k], next, env, log).AllPassed?
                 && RunPre(hooks[1..][k], PreChain(hooks[1..][..k], next, env, log).context, env, log)
                    == Returned(r.result, r.context);
        PreChainAppend([hooks[0]], hooks[1..][..k], ctx, env, log);
        assert [hooks[0]] + hooks[1..][..k] == hooks[..k + 1];
        assert [hooks[0]][1..] == [];
      }
  }

  /** The built-in hooks never change which tool the context is for, nor its
      lifecycle state. */
  lemma {:induction false} BuiltInChainKeepsToolName(hooks: seq<PreHook>, ctx: HookContext, env: Env, log: seq<LogLine>)
    requires forall k :: 0 <= k < |hooks| ==> !hooks[k].CustomPre?
    ensures PreChain(hooks, ctx, env, log).context.toolName == ctx.toolName
    ensures PreChain(hooks, ctx, env, log).context.state == ctx.state
    decreases |hooks|
  {
    if hooks != [] {
      match RunPre(hooks[0], ctx, env, log)
      case Threw(_) =>
      case Returned(result, next) =>
        assert next.toolName == ctx.toolName && next.state == ctx.state;
        if result.Success? {
          BuiltInChainKeepsToolName(hooks[1..], next, env, log);
        }
    }
  }

  /** With the default hooks, only the permission gate asks for a human, and only
      for a command tool whose destructive command the user denied. Every other
      stop is a plain failure. */
  lemma HumanStopOnlyFromDeniedCommand(ctx: HookContext, env: Env, log: seq<LogLine>)
    requires PreChain(DefaultPreHooks, ctx, env, log).Stopped?
    requires PreChain(DefaultPreHooks, ctx, env, log).result.requiresHumanIntervention
    ensures ctx.toolName in PermissionGate.CommandTools
    ensures env.answer == Some(PermissionGate.Deny)
  {
    var hs := DefaultPreHooks;
    var r := PreChain(hs, ctx, env, log);
    PreChainStopsAtFirstFailure(hs, ctx, env, log);
    var k :| 0 <= k < |hs| && PreChain(hs[..k], ctx, env, log).AllPassed?
             && RunPre(hs[k], PreChain(hs[..k], ctx, env, log).context, env, log) == Returned(r.result, r.context);
    var c := PreChain(hs[..k], ctx, env, log).context;
    BuiltInChainKeepsToolName(hs[..k], ctx, env, log);
    assert hs[k] == CheckPermissions;
    assert PermissionGate.CheckPermissions(c, env.answer).Failure?;
  }

  /** With the default hooks, a call that does not pass them all ends where they
      left it, in PRE_HOOK_ANALYSIS: in particular an ordinary failure, which
      `executeToolWithHooks` raises without touching the state. */
  lemma DefaultChainEndsInAnalysis(previous: HookContext, toolName: string, args: ToolArgs, env: Env, log: seq<LogLine>)
    ensures PreChain(DefaultPreHooks, StartContext(previous, toolName, args), env, log).context.state == PreHookAnalysis
  {
    BuiltInChainKeepsToolName(DefaultPreHooks, StartContext(previous, toolName, args), env, log);
  }

  /** A tool on none of the allow-lists, called without an intent, passes the
      default chain and its context is left as it was. */
  lemma UnlistedToolPassesUntouched(ctx: HookContext, env: Env, log: seq<LogLine>)
    requires ctx.toolName !in IntentSelector.IntentRequiredTools
    requires ctx.toolName !in ScopeEnforcer.WriteTools
    requires ctx.toolName !in PermissionGate.CommandTools
    requires !Truthy(ctx.intentId)
    ensures PreChain(DefaultPreHooks, ctx, env, log) == AllPassed(ctx)
  {
    var hs := DefaultPreHooks;
    assert hs[1..] == [EnforceScope, CheckPermissions, InjectContext];
    assert hs[1..][1..] == [CheckPermissions, InjectContext];
    assert hs[1..][1..][1..] == [InjectContext];
    assert hs[1..][1..][1..][1..] == [];
  }

  /** The context a call starts from: the previous intent id when truthy (else
      null), replaced by a truthy `args.intent_id`; the rest fresh. */
  function StartContext(previous: HookContext, toolName: string, args: ToolArgs): (r: HookContext)
    ensures r.state == PreHookAnalysis && r.toolName == toolName && r.toolArgs == args
    ensures r.authorizationStatus == AuthorizationStatus.Pending
    ensures Arg(args, "intent_id").Some? ==> r.intentId == Arg(args, "intent_id")
    ensures Arg(args, "intent_id").None? && Truthy(previous.intentId) ==> r.intentId == previous.intentId
    ensures Arg(args, "intent_id").None? && !Truthy(previous.intentId) ==> r.intentId == None
  {
    var carried := if Truthy(previous.intentId) then previous.intentId else None;
    InitialContext.(state := PreHookAnalysis, intentId := Or(Arg(args, "intent_id"), carried),
                    toolName := toolName, toolArgs := args)
  }

  /** `{ error: message }` for a tool that threw, its value otherwise. */
  function ToolResultOf(executor: Executor): ToolResult {
    match executor
    case Returns(value) => Value(value)
    case Throws(message) => ErrorPayload(message)
  }

  /** The state the post-hooks act on: the trace log and the registry's map. */
  datatype PostState = PostState(log: seq<LogLine>, fileToIntent: map<string, string>, mapDoc: Option<string>)

  /** One post-hook on that state. A throwing custom hook changes nothing. */
  function RunPost(hook: PostHook, ctx: HookContext, env: Env, st: PostState): PostState {
    match hook
    case LogExecution => st.(log := TraceLogger.LoggedLog(ctx, env.logger, st.log))
    case UpdateMap =>
      (match IntentMapper.Delegated(ctx)
       case None => st
       case Some((intentId, path)) =>
         st.(fileToIntent := st.fileToIntent[path := intentId],
             mapDoc := if env.mapWriteOk then Some(UpdatedMapText(st.mapDoc, intentId, path, env.mapTimestamp))
                       else st.mapDoc))
    case CustomPost => st
  }

  /** Every post-hook in order, each on the state the previous one left. */
  function PostChain(hooks: seq<PostHook>, ctx: HookContext, env: Env, st: PostState): PostState
    decreases |hooks|
  {
    if hooks == [] then st else PostChain(hooks[1..], ctx, env, RunPost(hooks[0], ctx, env, st))
  }

  /** The post-hooks only ever append to the trace log, at most one record each,
      and only ever add or replace associations in the file map (a custom post-hook
      is modelled as having no effect). */
  lemma {:induction false} PostChainAppendsOnly(hooks: seq<PostHook>, ctx: HookContext, env: Env, st: PostState)
    ensures var r := PostChain(hooks, ctx, env, st);
            && |st.log| <= |r.log| <= |st.log| + |hooks|
            && r.log[..|st.log|] == st.log
            && st.fileToIntent.Keys <= r.fileToIntent.Keys
    decreases |hooks|
  {
    if hooks != [] {
      var next := RunPost(hooks[0], ctx, env, st);
      PostChainAppendsOnly(hooks[1..], ctx, env, next);
      var r := PostChain(hooks, ctx, env, st);
      assert r.log[..|next.log|] == next.log;
      assert r.log[..|st.log|] == r.log[..|next.log|][..|st.log|];
    }
  }

  /** With the default post-hooks, a write under an intent whose trace append
      succeeds is the newest trace read back for that intent. */
  lemma DefaultPostHooksLogTheWrite(ctx: HookContext, env: Env, st: PostState, limit: int)
    requires TraceLogger.TraceEntryFor(ctx, env.logger).Some? && env.logger.writeOk && limit >= 1
    ensures var r := TracesByIntent(PostChain(DefaultPostHooks, ctx, env, st).log, ctx.intentId.value, limit);
            |r| >= 1 && r[|r| - 1] == TraceLogger.TraceEntryFor(ctx, env.logger).value
  {
    var hs := DefaultPostHooks;
    var s1 := RunPost(LogExecution, ctx, env, st);
    var s2 := RunPost(UpdateMap, ctx, env, s1);
    assert hs[1..] == [UpdateMap] && hs[1..][1..] == [];
    assert PostChain(hs, ctx, env, st) == PostChain(hs[1..], ctx, env, s1);
    assert PostChain(hs[1..], ctx, env, s1) == PostChain([], ctx, env, s2);
    assert s2.log == s1.log;
    TraceLogger.LoggedTraceIsReadBack(ctx, env.logger, st.log, limit);
  }

  /** `HookManager`. */
  class HookManager {
    var preHooks: seq<PreHook>
    var postHooks: seq<PostHook>
    var currentContext: HookContext
    /** Set once and never changed: the calls move `currentContext.state` instead. */
    var state: LifecycleState
    /** How many times a wrapped tool was called. */
    ghost var executions: nat
    /** Every post-hook run so far, in order. */
    ghost var postRuns: seq<PostHook>

    /** A manager with the default hooks in their order and the initial context. */
    constructor ()
      ensures preHooks == DefaultPreHooks && postHooks == DefaultPostHooks
      ensures currentContext == InitialContext && state == Idle
      ensures executions == 0 && postRuns == []
    {
      preHooks := DefaultPreHooks;
      postHooks := DefaultPostHooks;
      currentContext := InitialContext;
      state := Idle;
      executions := 0;
      postRuns := [];
    }

    method RegisterPreHook(hook: PreHook)
      modifies this`preHooks
      ensures preHooks == old(preHooks) + [hook]
    {
      preHooks := preHooks + [hook];
    }

    method RegisterPostHook(hook: PostHook)
      modifies this`postHooks
      ensures postHooks == old(postHooks) + [hook]
    {
      postHooks := postHooks + [hook];
    }

    /** `setIntent`: only the intent id of the current context changes. */
    method SetIntent(intentId: string)
      modifies this`currentContext
      ensures currentContext == old(currentContext).(intentId := Some(intentId))
    {
      currentContext := currentContext.(intentId := Some(intentId));
    }

    /** `getCurrentContext`: a copy equal to the current context. */
    method GetCurrentContext() returns (ctx: HookContext)
      ensures ctx == currentContext
    {
      ctx := currentContext;
    }

    /** `runPreHooks`: the hooks in order on the given context; the first failure is
        returned, and an exception from a hook escapes. */
    method RunPreHooks(context: HookContext, env: Env, log: seq<LogLine>) returns (outcome: PreOutcome)
      ensures outcome == PreChain(preHooks, context, env, log)
    {
      var ctx := context;
      for i := 0 to |preHooks|
        invariant PreChain(preHooks[i..], ctx, env, log) == PreChain(preHooks, context, env, log)
      {
        assert preHooks[i..][0] == preHooks[i] && preHooks[i..][1..] == preHooks[i + 1..];
        var step := RunPre(preHooks[i], ctx, env, log);
        match step {
          case Threw(message) =>
            return PreOutcome.Raised(message, ctx);
          case Returned(result, next) =>
            if result.Failure? {
              return Stopped(result, next);
            }
            ctx := next;
        }
      }
      assert preHooks[|preHooks|..] == [];
      outcome := AllPassed(ctx);
    }

    /** One post-hook, on the services it acts on. */
    method RunPostHook(hook: PostHook, ctx: HookContext, env: Env, traces: TraceService, intents: IntentService)
      modifies traces`log, intents`fileToIntent, intents`mapDoc
      ensures PostState(traces.log, intents.fileToIntent, intents.mapDoc)
              == RunPost(hook, ctx, env, old(PostState(traces.log, intents.fileToIntent, intents.mapDoc)))
    {
      match hook {
        case LogExecution =>
          TraceLogger.LogExecution(ctx, env.logger, traces);
        case UpdateMap =>
          IntentMapper.UpdateMap(ctx, intents, env.mapTimestamp, env.mapWriteOk);
        case CustomPost =>
      }
    }

    /** `runPostHooks`: every hook in order; a hook that throws is logged and skipped. */
    method RunPostHooks(context: HookContext, result: ToolResult, env: Env, traces: TraceService, intents: IntentService)
      modifies this`postRuns, traces`log, intents`fileToIntent, intents`mapDoc
      ensures postRuns == old(postRuns) + postHooks
      ensures PostState(traces.log, intents.fileToIntent, intents.mapDoc)
              == PostChain(postHooks, context, env, old(PostState(traces.log, intents.fileToIntent, intents.mapDoc)))
    {
      ghost var st0 := PostState(traces.log, intents.fileToIntent, intents.mapDoc);
      for i := 0 to |postHooks|
        invariant postRuns == old(postRuns) + postHooks[..i]
        invariant PostChain(postHooks[i..], context, env, PostState(traces.log, intents.fileToIntent, intents.mapDoc))
                  == PostChain(postHooks, context, env, st0)
      {
        assert postHooks[i..][0] == postHooks[i] && postHooks[i..][1..] == postHooks[i + 1..];
        assert postHooks[..i + 1] == postHooks[..i] + [postHooks[i]];
        RunPostHook(postHooks[i], context, env, traces, intents);
        postRuns := postRuns + [postHooks[i]];
      }
      assert postHooks[..|postHooks|] == postHooks;
      assert postHooks[|postHooks|..] == [];
    }

    /** The first phase of `executeToolWithHooks`: the fresh context, which keeps the
        previous truthy intent id unless the arguments name one, then the pre-hooks. */
    method BeginCall(toolName: string, args: ToolArgs, env: Env, log: seq<LogLine>) returns (pre: PreOutcome)
      modifies this`currentContext
      ensures currentContext == StartContext(old(currentContext), toolName, args)
      ensures pre == PreChain(preHooks, currentContext, env, log)
      ensures preHooks == DefaultPreHooks ==> pre.context.state == PreHookAnalysis
    {
      var carried := if Truthy(currentContext.intentId) then currentContext.intentId else None;
      currentContext := InitialContext.(intentId := carried, toolName := toolName, toolArgs := args,
                                        state := PreHookAnalysis);
      if Arg(args, "intent_id").Some? {
        currentContext := currentContext.(intentId := Arg(args, "intent_id"));
      }
      if toolName == "select_active_intent" && Arg(args, "intent_id").Some? {
        currentContext := currentContext.(intentId := Arg(args, "intent_id"));
      }
      pre := RunPreHooks(currentContext, env, log);
      if preHooks == DefaultPreHooks {
        DefaultChainEndsInAnalysis(old(currentContext), toolName, args, env, log);
      }
    }

    /** `executeToolWithHooks`. The pre-hooks run on a fresh context that keeps the
        previous intent. A failure asking for a human sets the state to
        HUMAN_INTERVENTION and raises `HumanInterventionRequiredError`; any other
        failure raises `HookExecutionError` with the state left where the hooks left it
        (PRE_HOOK_ANALYSIS for the default hooks);
        in both the tool is not called and no post-hook runs. Otherwise the tool runs,
        its exception becomes an error value, every post-hook runs, and the call
        returns the tool's result with the state back at IDLE. */
    method ExecuteToolWithHooks(toolName: string, args: ToolArgs, executor: Executor, env: Env,
                                traces: TraceService, intents: IntentService) returns (outcome: CallOutcome)
      modifies this`currentContext, this`executions, this`postRuns
      modifies traces`log, intents`fileToIntent, intents`mapDoc
      ensures var pre := PreChain(preHooks, StartContext(old(currentContext), toolName, args), env, old(traces.log));
              && (pre.AllPassed? ==>
                    && outcome == CallOutcome.Completed(ToolResultOf(executor))
                    && currentContext == pre.context.(state := Idle)
                    && executions == old(executions) + 1
                    && postRuns == old(postRuns) + postHooks
                    && PostState(traces.log, intents.fileToIntent, intents.mapDoc)
                       == PostChain(postHooks, pre.context.(state := PostHookLogging), env,
                                    old(PostState(traces.log, intents.fileToIntent, intents.mapDoc))))
              && (!pre.AllPassed? ==>
                    && executions == old(executions) && postRuns == old(postRuns)
                    && traces.log == old(traces.log)
                    && intents.fileToIntent == old(intents.fileToIntent) && intents.mapDoc == old(intents.mapDoc))
              && (pre.Stopped? && pre.result.requiresHumanIntervention ==>
                    outcome == HumanInterventionRequiredError(pre.result.error)
                    && currentContext == pre.context.(state := HumanIntervention))
              && (pre.Stopped? && !pre.result.requiresHumanIntervention ==>
                    outcome == HookExecutionError(pre.result.error) && currentContext == pre.context)
              && (preHooks == DefaultPreHooks && pre.Stopped? && !pre.result.requiresHumanIntervention ==>
                    currentContext.state == PreHookAnalysis)
              && (pre.Raised? ==> outcome == HookThrew(pre.message) && currentContext == pre.context)
    {
      var pre := BeginCall(toolName, args, env, traces.log);
      match pre {
        case Raised(message, ctx) =>
          currentContext := ctx;
          return HookThrew(message);
        case Stopped(result, ctx) =>
          currentContext := ctx;
          if result.requiresHumanIntervention {
            currentContext := currentContext.(state := HumanIntervention);
            return HumanInterventionRequiredError(result.error);
          }
          return HookExecutionError(result.error);
        case AllPassed(ctx) =>
          currentContext := ctx;
      }

      currentContext := currentContext.(state := ToolExecution);
      var toolResult := ToolResultOf(executor);
      executions := executions + 1;

      currentContext := currentContext.(state := PostHookLogging);
      RunPostHooks(currentContext, toolResult, env, traces, intents);

      currentContext := currentContext.(state := Idle);
      outcome := CallOutcome.Completed(toolResult);
    }
  }
}
