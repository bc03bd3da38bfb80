/** The map-update post-hook: after any tool that named a target file under a
    truthy intent, it records the file under that intent in the registry. */
module IntentMapper {
  import opened HookTypes
  import opened IntentMapDoc
  import opened IntentRegistry

  /** The `(intent id, path)` the hook hands to the registry, or `None` when one of
      its two guards returns early. */
  function Delegated(ctx: HookContext): (r: Option<(string, string)>)
    ensures r.Some? <==> Truthy(ctx.intentId) && TargetPath(ctx.toolArgs).Some?
    ensures r.Some? ==> r.value.0 == ctx.intentId.value && r.value.1 == TargetPath(ctx.toolArgs).value
    ensures r.Some? ==> r.value.0 != "" && r.value.1 != ""
  {
    if !Truthy(ctx.intentId) then None
    else
      match TargetPath(ctx.toolArgs)
      case None => None
      case Some(path) => Some((ctx.intentId.value, path))
  }

  /** `updateMap`: a no-op without an intent id or a target path; otherwise it
      delegates to `addFileToIntentMap`, whose failure is swallowed. The tool
      name is not consulted, so a read-only tool maps its file too. */
  method UpdateMap(ctx: HookContext, service: IntentService, timestamp: string, writeOk: bool)
    modifies service`fileToIntent, service`mapDoc
    ensures Delegated(ctx).None? ==>
              service.fileToIntent == old(service.fileToIntent) && service.mapDoc == old(service.mapDoc)
    ensures Delegated(ctx).Some? ==>
              var (intentId, path) := Delegated(ctx).value;
              && service.fileToIntent == old(service.fileToIntent)[path := intentId]
              && service.mapDoc == if writeOk then Some(UpdatedMapText(old(service.mapDoc), intentId, path, timestamp))
                                   else old(service.mapDoc)
  {
    if !Truthy(ctx.intentId) {
      return;
    }
    var filePath := TargetPath(ctx.toolArgs);
    if filePath.None? {
      return;
    }
    var _ := service.AddFileToIntentMap(ctx.intentId.value, filePath.value, timestamp, writeOk);
  }
}
