/** The records the hooks exchange: the lifecycle states, the per-call context,
    hook results, business intents and audit-trail entries, with the truthy
    reads of tool arguments that every hook performs. */
module HookTypes {

  datatype Option<+T> = None | Some(value: T) {
    function GetOr(default: T): T {
      match this
      case Some(v) => v
      case None => default
    }
  }

  datatype LifecycleState =
    | Idle
    | AwaitingIntent
    | PreHookAnalysis
    | ToolExecution
    | PostHookLogging
    | HumanIntervention

  datatype AuthorizationStatus = Pending | Approved | Denied

  /** Tool arguments: an opaque key/value mapping whose values are text. */
  type ToolArgs = map<string, string>

  /** A text value is truthy when it is present and not empty. */
  predicate Truthy(o: Option<string>) {
    o.Some? && o.value != ""
  }

  /** `args.key` read for truthiness: `Some` only when present and not empty. */
  function Arg(args: ToolArgs, key: string): Option<string> {
    if key in args && args[key] != "" then Some(args[key]) else None
  }

  /** `a || b` over two truthy reads. */
  function Or(a: Option<string>, b: Option<string>): Option<string> {
    if a.Some? then a else b
  }

  /** `args.file_path || args.path || args.file`: the target of a file tool. */
  function TargetPath(args: ToolArgs): Option<string> {
    Or(Arg(args, "file_path"), Or(Arg(args, "path"), Arg(args, "file")))
  }

  /** The value of that `||` chain itself: its last operand is taken as it is, so an
      empty `file` comes out as "" where the truthy read above has nothing. */
  function PathChain(args: ToolArgs): (r: Option<string>)
    ensures TargetPath(args).Some? ==> r == TargetPath(args)
    ensures TargetPath(args).None? && "file" in args ==> r == Some("")
    ensures TargetPath(args).None? && "file" !in args ==> r.None?
    ensures Truthy(r) <==> TargetPath(args).Some?
  {
    Or(Arg(args, "file_path"), Or(Arg(args, "path"), if "file" in args then Some(args["file"]) else None))
  }

  /** The working state of one invocation (`intent_id` is `string | null`). */
  datatype HookContext = HookContext(
    state: LifecycleState,
    intentId: Option<string>,
    toolName: string,
    toolArgs: ToolArgs,
    authorizationStatus: AuthorizationStatus)

  /** What a pre-hook returns: success with optional data, or an error message
      with the "requires human intervention" flag (absent reads as false). */
  datatype HookResult =
    | Success(data: Option<string>)
    | Failure(error: string, requiresHumanIntervention: bool)

  /** One pre-hook run: the result it returned with the context as the hook left
      it, or the message of an exception it let escape. */
  datatype PreStep =
    | Returned(result: HookResult, context: HookContext)
    | Threw(message: string)

  /** What the wrapped tool produced: its value, or `{error: message}` when it threw. */
  datatype ToolResult = Value(value: string) | ErrorPayload(error: string)

  datatype IntentStatus = Pending | InProgress | Blocked | Completed

  datatype IntentPriority = Critical | High | Normal | Low

  datatype BusinessIntent = BusinessIntent(
    id: string,
    name: string,
    summary: string,
    description: string,
    status: IntentStatus,
    priority: IntentPriority,
    ownedScope: seq<string>,
    constraints: seq<string>,
    acceptanceCriteria: seq<string>,
    createdAt: string,
    updatedAt: string,
    relatedIntents: seq<string>)

  /** What a hook sees when it asks the registry for an intent: the intents as
      reloaded from the store, or the message of the exception the reload raised. */
  datatype RegistryRead =
    | Loaded(intents: map<string, BusinessIntent>)
    | ReadFailed(message: string)

  datatype EntityType = AI | Human

  datatype Contributor = Contributor(entityType: EntityType, modelIdentifier: string)

  datatype ContentRange = ContentRange(startLine: int, endLine: int, contentHash: string)

  datatype RelatedType = Specification | IntentRef | Constraint

  datatype RelatedReference = RelatedReference(kind: RelatedType, value: string)

  datatype ConversationTrace = ConversationTrace(
    url: string,
    contributor: Contributor,
    ranges: seq<ContentRange>,
    related: seq<RelatedReference>)

  /** `relative_path` is absent when the tool named no target file (the field is then
      dropped by the serializer). */
  datatype FileTrace = FileTrace(relativePath: Option<string>, conversations: seq<ConversationTrace>)

  datatype Vcs = Vcs(revisionId: string)

  /** One audit record. `mutation_class` is free text: callers may supply their own. */
  datatype TraceEntry = TraceEntry(
    id: string,
    timestamp: string,
    vcs: Vcs,
    intentId: string,
    mutationClass: string,
    files: seq<FileTrace>)
}
