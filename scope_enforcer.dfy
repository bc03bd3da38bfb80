/** The scope pre-hook: a write must target a path inside the active intent's
    owned scope, and, when the caller supplies the hash it last saw, the file must
    not have changed since. Hashing, path normalisation and glob matching are the
    libraries the source calls; they are passed in as functions. */
module ScopeEnforcer {
  import opened Text
  import opened HookTypes

  const WriteTools: seq<string> := ["write_file", "create_file", "edit_file", "apply_fix"]

  const NeedsIntentMessage: string :=
    "Scope enforcement requires an active intent. Call select_active_intent first."

  /** SHA-256 of a text, `path.normalize`, and `minimatch(path, pattern, {dot: true})`. */
  datatype PathLibrary = PathLibrary(
    hash: string -> string,
    normalize: string -> string,
    matches: (string, string) -> bool)

  function StaleMessage(target: string): string {
    "Stale File: " + target + " has changed since the agent read it. Please re-fetch the latest version and replay your changes."
  }

  function ViolationMessage(intent: BusinessIntent, target: string): string {
    "Scope Violation: Intent \"" + intent.id + "\" is not authorized to modify \"" + target
      + "\". This intent only has scope over: " + Join(intent.ownedScope, ", ")
      + ". Request scope expansion via intent update."
  }

  /** The target was read and its hash differs from the one the caller supplied.
      A file that cannot be read (absent from `files`) is never stale. */
  predicate IsStale(args: ToolArgs, files: map<string, string>, lib: PathLibrary, target: string) {
    && Arg(args, "original_hash").Some?
    && target in files
    && lib.hash(files[target]) != Arg(args, "original_hash").value
  }

  /** Some pattern of the scope matches the normalised path as given or with any directory prefix. */
  predicate Authorized(scope: seq<string>, lib: PathLibrary, target: string) {
    var normalized := lib.normalize(target);
    exists pattern | pattern in scope ::
      lib.matches(normalized, pattern) || lib.matches(normalized, "**/" + pattern)
  }

  /** The check on a write under a known intent: staleness is decided before scope,
      so a stale write outside the scope reports the staleness. */
  function CheckTarget(intent: BusinessIntent, target: string, args: ToolArgs, files: map<string, string>, lib: PathLibrary): (r: HookResult)
    ensures IsStale(args, files, lib, target) ==> r == Failure(StaleMessage(target), false)
    ensures !IsStale(args, files, lib, target) && !Authorized(intent.ownedScope, lib, target) ==>
              r == Failure(ViolationMessage(intent, target), false)
    ensures !IsStale(args, files, lib, target) && Authorized(intent.ownedScope, lib, target) ==> r == Success(None)
  {
    if IsStale(args, files, lib, target) then Failure(StaleMessage(target), false)
    else if !Authorized(intent.ownedScope, lib, target) then Failure(ViolationMessage(intent, target), false)
    else Success(None)
  }

  /** `enforceScope`. It never changes the context and never asks for a human. A
      missing intent, or a write without a target path, passes. */
  function EnforceScope(ctx: HookContext, registry: RegistryRead, files: map<string, string>, lib: PathLibrary): (out: PreStep)
    ensures out.Returned? ==> out.context == ctx
    ensures ctx.toolName !in WriteTools ==> out.Returned? && out.result == Success(None)
    ensures ctx.toolName in WriteTools && !Truthy(ctx.intentId) ==>
              out.Returned? && out.result == Failure(NeedsIntentMessage, false)
    ensures out.Threw? <==> ctx.toolName in WriteTools && Truthy(ctx.intentId) && registry.ReadFailed?
    ensures ctx.toolName in WriteTools && Truthy(ctx.intentId) && registry.Loaded? ==>
              var id := ctx.intentId.value;
              && (id !in registry.intents || TargetPath(ctx.toolArgs).None? ==>
                    out.Returned? && out.result == Success(None))
              && (id in registry.intents && TargetPath(ctx.toolArgs).Some? ==>
                    out.Returned? &&
                    out.result == CheckTarget(registry.intents[id], TargetPath(ctx.toolArgs).value, ctx.toolArgs, files, lib))
    ensures out.Returned? ==> out.result.Success? || !out.result.requiresHumanIntervention
  {
    if ctx.toolName !in WriteTools then Returned(Success(None), ctx)
    else if !Truthy(ctx.intentId) then Returned(Failure(NeedsIntentMessage, false), ctx)
    else
      match registry
      case ReadFailed(message) => Threw(message)
      case Loaded(intents) =>
        if ctx.intentId.value !in intents then Returned(Success(None), ctx)
        else
          match TargetPath(ctx.toolArgs)
          case None => Returned(Success(None), ctx)
          case Some(target) => Returned(CheckTarget(intents[ctx.intentId.value], target, ctx.toolArgs, files, lib), ctx)
  }

  /** A scope-violation message names the intent, the denied path and every granted pattern. */
  lemma ViolationMessageNamesEverything(intent: BusinessIntent, target: string, k: int)
    requires 0 <= k < |intent.ownedScope|
    ensures Contains(ViolationMessage(intent, target), intent.id)
    ensures Contains(ViolationMessage(intent, target), target)
    ensures Contains(ViolationMessage(intent, target), intent.ownedScope[k])
  {
    var head := "Scope Violation: Intent \"" + intent.id;
    var withTarget := head + "\" is not authorized to modify \"" + target;
    var withScope := withTarget + "\". This intent only has scope over: " + Join(intent.ownedScope, ", ");
    var m := ViolationMessage(intent, target);
    assert m == withScope + ". Request scope expansion via intent update.";
    ContainsHalves(withScope, ". Request scope expansion via intent update.");
    ContainsHalves(withTarget + "\". This intent only has scope over: ", Join(intent.ownedScope, ", "));
    ContainsHalves(head + "\" is not authorized to modify \"", target);
    ContainsHalves("Scope Violation: Intent \"", intent.id);
    ContainsHalves(withTarget, "\". This intent only has scope over: ");
    ContainsHalves(head, "\" is not authorized to modify \"");
    // the scope list
    ContainsTransitive(m, withScope, Join(intent.ownedScope, ", "));
    JoinContainsPart(intent.ownedScope, ", ", k);
    ContainsTransitive(m, Join(intent.ownedScope, ", "), intent.ownedScope[k]);
    // the target and the intent id
    ContainsTransitive(withScope, withTarget + "\". This intent only has scope over: ", withTarget);
    ContainsTransitive(m, withScope, withTarget);
    ContainsTransitive(m, withTarget, target);
    ContainsTransitive(withTarget, head + "\" is not authorized to modify \"", head);
    ContainsTransitive(m, withTarget, head);
    ContainsTransitive(m, head, intent.id);

  }
}
