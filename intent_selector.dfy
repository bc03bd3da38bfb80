/** The intent-validation pre-hook: code-modifying and command tools may run only
    under a known, unfinished intent, and the resolved intent id is written back
    into the context. */
module IntentSelector {
  import opened HookTypes

  const IntentRequiredTools: seq<string> :=
    ["write_file", "create_file", "edit_file", "execute_command", "bash", "apply_fix"]

  const NoIntentMessage: string :=
    "No active Intent ID provided. You must call select_active_intent(intent_id: string) before executing any code-modifying tools."

  function NotFoundMessage(intentId: string): string {
    "Intent ID \"" + intentId + "\" not found in active_intents.yaml. Please select a valid intent."
  }

  function CompletedMessage(intentId: string): string {
    "Intent \"" + intentId + "\" is already completed. Please select a new intent or mark this one as in_progress."
  }

  /** `context.tool_args.intent_id || context.intent_id`: the arguments win when truthy. */
  function ResolvedIntentId(ctx: HookContext): (r: Option<string>)
    ensures Truthy(Arg(ctx.toolArgs, "intent_id")) ==> r == Arg(ctx.toolArgs, "intent_id")
    ensures !Truthy(Arg(ctx.toolArgs, "intent_id")) ==> r == (if Truthy(ctx.intentId) then ctx.intentId else None)
    ensures r.Some? ==> r.value != ""
  {
    Or(Arg(ctx.toolArgs, "intent_id"), if Truthy(ctx.intentId) then ctx.intentId else None)
  }

  /** `validateIntentSelection`. Every failure it returns leaves the context as it was
      and does not ask for a human; a registry that cannot be read makes it throw. */
  function ValidateIntentSelection(ctx: HookContext, registry: RegistryRead): (out: PreStep)
    ensures ctx.toolName !in IntentRequiredTools ==> out == Returned(Success(None), ctx)
    ensures ctx.toolName in IntentRequiredTools && ResolvedIntentId(ctx).None? ==>
              out == Returned(Failure(NoIntentMessage, false), ctx)
    ensures out.Threw? <==>
              ctx.toolName in IntentRequiredTools && ResolvedIntentId(ctx).Some? && registry.ReadFailed?
    ensures out.Threw? ==> out.message == registry.message
    ensures ctx.toolName in IntentRequiredTools && ResolvedIntentId(ctx).Some? && registry.Loaded? ==>
              var id := ResolvedIntentId(ctx).value;
              && (id !in registry.intents ==> out == Returned(Failure(NotFoundMessage(id), false), ctx))
              && (id in registry.intents && registry.intents[id].status == Completed ==>
                    out == Returned(Failure(CompletedMessage(id), false), ctx))
              && (id in registry.intents && registry.intents[id].status != Completed ==>
                    out == Returned(Success(None), ctx.(intentId := Some(id))))
    ensures out.Returned? && out.result.Failure? ==>
              out.context == ctx && !out.result.requiresHumanIntervention
  {
    if ctx.toolName !in IntentRequiredTools then Returned(Success(None), ctx)
    else
      match ResolvedIntentId(ctx)
      case None => Returned(Failure(NoIntentMessage, false), ctx)
      case Some(id) =>
        match registry
        case ReadFailed(message) => Threw(message)
        case Loaded(intents) =>
          if id !in intents then Returned(Failure(NotFoundMessage(id), false), ctx)
          else if intents[id].status == Completed then Returned(Failure(CompletedMessage(id), false), ctx)
          else Returned(Success(None), ctx.(intentId := Some(id)))
  }
}
