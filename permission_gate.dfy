/** The command permission pre-hook: commands of the shell tools are classified
    by a classifier created for this call (so with an empty whitelist), and a
    destructive one is put to the user, whose answer decides. */
module PermissionGate {
  import opened Text
  import opened HookTypes
  import opened Security

  const CommandTools: seq<string> := ["execute_command", "bash", "shell"]

  /** The buttons of the warning dialog; a dismissed dialog gives no answer. */
  datatype Answer = AllowOnce | Deny | AllowAndTrust

  /** `context.tool_args.command || context.tool_args.cmd || ""` */
  function CommandOf(args: ToolArgs): string {
    Or(Arg(args, "command"), Arg(args, "cmd")).GetOr("")
  }

  function DeniedMessage(command: string): string {
    "User denied execution of: " + command
  }

  /** `checkPermissions`. It fails only for a destructive command the user denied,
      and then asks for a human; every other answer, including none, lets the
      command through. An "Allow and Trust" answer whitelists the command on the
      throwaway classifier only, so the function takes no whitelist and a later
      call asks again. */
  function CheckPermissions(ctx: HookContext, answer: Option<Answer>): (r: HookResult)
    ensures ctx.toolName !in CommandTools ==> r == Success(None)
    ensures r.Failure? <==>
              && ctx.toolName in CommandTools
              && HasDestructiveMarker(Normalize(CommandOf(ctx.toolArgs)))
              && answer == Some(Deny)
    ensures r.Failure? ==> r.requiresHumanIntervention && Contains(r.error, CommandOf(ctx.toolArgs))
    ensures r.Success? ==> r.data == None
  {
    if ctx.toolName !in CommandTools then Success(None)
    else
      var command := CommandOf(ctx.toolArgs);
      var classification := Classify({}, command);
      if classification.riskLevel == Safe then Success(None)
      else if classification.riskLevel == Destructive && answer == Some(Deny) then
        ContainsMiddle("User denied execution of: ", command, "");
        assert "User denied execution of: " + command + "" == DeniedMessage(command);
        Failure(DeniedMessage(command), true)
      else Success(None)
  }

  /** The gate on an `rm -rf` command of a shell tool: denied it fails, any other
      answer (or none) lets it through. */
  lemma RmRfIsPutToTheUser(ctx: HookContext, answer: Option<Answer>, rest: string)
    requires ctx.toolName in CommandTools && CommandOf(ctx.toolArgs) == "rm -rf" + rest
    requires rest == [] || !IsWordChar(rest[0])
    ensures CheckPermissions(ctx, answer).Failure? <==> answer == Some(Deny)
  {
    RmRfIsDestructive(rest);
  }
}
