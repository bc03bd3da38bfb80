/** The context-injection pre-hook: for the active intent it renders a text block
    (header, intent line, constraints, scope, the most recent traces, footer),
    attaches it to the tool arguments as `intent_context` and returns it. */
module ContextInjector {
  import opened Text
  import opened HookTypes
  import opened TraceStore

  const Header: string := "<!-- Intent Context -->"
  const Footer: string := "<!-- End Intent Context -->"
  const TracesTitle: string := "Recent traces:"

  /** How many of the intent's traces the hook asks for. */
  const RecentTraceCount: int := 5

  function Bullet(item: string): string {
    "  - " + item
  }

  function IntentLine(intent: BusinessIntent): string {
    "Intent: " + intent.id + " - " + intent.name
  }

  /** `trace.files?.[0]?.relative_path || "unknown"`, then the mutation class in parentheses. */
  function TraceLine(trace: TraceEntry): string {
    var path :=
      if |trace.files| > 0 && Truthy(trace.files[0].relativePath) then trace.files[0].relativePath.value
      else "unknown";
    Bullet(path + " (" + trace.mutationClass + ")")
  }

  function Bullets(items: seq<string>): (r: seq<string>)
    ensures |r| == |items|
    ensures forall k :: 0 <= k < |r| ==> r[k] == Bullet(items[k])
  {
    seq(|items|, k requires 0 <= k < |items| => Bullet(items[k]))
  }

  function TraceLines(traces: seq<TraceEntry>): (r: seq<string>)
    ensures |r| == |traces|
    ensures forall k :: 0 <= k < |r| ==> r[k] == TraceLine(traces[k])
  {
    seq(|traces|, k requires 0 <= k < |traces| => TraceLine(traces[k]))
  }

  /** The lines of the block, in order: header, intent line, "Constraints:" and one
      bullet per constraint, "Scope:" and one bullet per scope pattern, then, only
      when there are traces, "Recent traces:" and one line per trace, and the footer. */
  function BlockLines(intent: BusinessIntent, traces: seq<TraceEntry>): (r: seq<string>)
    ensures |r| == 5 + |intent.constraints| + |intent.ownedScope| + (if |traces| > 0 then 1 + |traces| else 0)
    ensures r[0] == Header && r[1] == IntentLine(intent) && r[|r| - 1] == Footer
    ensures r[2] == "Constraints:"
    ensures forall k :: 0 <= k < |intent.constraints| ==> r[3 + k] == Bullet(intent.constraints[k])
    ensures r[3 + |intent.constraints|] == "Scope:"
    ensures forall k :: 0 <= k < |intent.ownedScope| ==>
              r[4 + |intent.constraints| + k] == Bullet(intent.ownedScope[k])
    ensures |traces| > 0 ==>
              && r[4 + |intent.constraints| + |intent.ownedScope|] == TracesTitle
              && forall k :: 0 <= k < |traces| ==>
                   r[5 + |intent.constraints| + |intent.ownedScope| + k] == TraceLine(traces[k])
    ensures TracesTitle in r <==> |traces| > 0
  {
    var c := intent.constraints;
    var s := intent.ownedScope;
    var head := [Header, IntentLine(intent), "Constraints:"] + Bullets(c) + ["Scope:"] + Bullets(s);
    var tail := if |traces| > 0 then [TracesTitle] + TraceLines(traces) else [];
    var r := head + tail + [Footer];
    TitleOnlyAtItsPlace(r, intent, traces);
    r
  }

  /** In a block laid out as `BlockLines` describes, "Recent traces:" can only be the
      line after the scope bullets: every other line starts differently. */
  lemma TitleOnlyAtItsPlace(r: seq<string>, intent: BusinessIntent, traces: seq<TraceEntry>)
    requires |r| == 5 + |intent.constraints| + |intent.ownedScope| + (if |traces| > 0 then 1 + |traces| else 0)
    requires r[0] == Header && r[1] == IntentLine(intent) && r[|r| - 1] == Footer
    requires r[2] == "Constraints:"
    requires forall k :: 0 <= k < |intent.constraints| ==> r[3 + k] == Bullet(intent.constraints[k])
    requires r[3 + |intent.constraints|] == "Scope:"
    requires forall k :: 0 <= k < |intent.ownedScope| ==>
               r[4 + |intent.constraints| + k] == Bullet(intent.ownedScope[k])
    requires |traces| > 0 ==>
               forall k :: 0 <= k < |traces| ==>
                 r[5 + |intent.constraints| + |intent.ownedScope| + k] == TraceLine(traces[k])
    ensures forall k :: 0 <= k < |r| && r[k] == TracesTitle ==> k == 4 + |intent.constraints| + |intent.ownedScope|
  {
    var c := intent.constraints;
    var s := intent.ownedScope;
    forall k | 0 <= k < |r| && k != 4 + |c| + |s| ensures r[k] != TracesTitle {
      if 3 <= k < 3 + |c| {
        assert r[k] == Bullet(c[k - 3]);
      } else if 4 + |c| <= k < 4 + |c| + |s| {
        assert r[k] == Bullet(s[k - 4 - |c|]);
      } else if 4 + |c| + |s| < k < |r| - 1 {
        assert r[k] == TraceLine(traces[k - 5 - |c| - |s|]);
      }
      assert r[k][0] != TracesTitle[0] || |r[k]| != |TracesTitle|;
    }
  }

  /** The block is its lines joined with "\n". */
  function Block(intent: BusinessIntent, traces: seq<TraceEntry>): string {
    Join(BlockLines(intent, traces), "\n")
  }

  /** `buildIntentContextBlock`: pushes the lines one by one, then joins them. */
  method BuildIntentContextBlock(intent: BusinessIntent, recentTraces: seq<TraceEntry>) returns (block: string)
    ensures block == Block(intent, recentTraces)
  {
    var lines: seq<string> := [];
    lines := lines + [Header];
    lines := lines + [IntentLine(intent)];
    lines := lines + ["Constraints:"];
    ghost var start := lines;
    for k := 0 to |intent.constraints|
      invariant lines == start + Bullets(intent.constraints[..k])
    {
      BulletsSnoc(intent.constraints, k);
      lines := lines + [Bullet(intent.constraints[k])];
    }
    assert intent.constraints[..|intent.constraints|] == intent.constraints;
    lines := lines + ["Scope:"];
    ghost var head := lines;
    for k := 0 to |intent.ownedScope|
      invariant lines == head + Bullets(intent.ownedScope[..k])
    {
      BulletsSnoc(intent.ownedScope, k);
      lines := lines + [Bullet(intent.ownedScope[k])];
    }
    assert intent.ownedScope[..|intent.ownedScope|] == intent.ownedScope;
    ghost var body := lines;
    assert body == [Header, IntentLine(intent), "Constraints:"] + Bullets(intent.constraints) + ["Scope:"]
                   + Bullets(intent.ownedScope);
    if |recentTraces| > 0 {
      lines := lines + [TracesTitle];
      ghost var before := lines;
      for k := 0 to |recentTraces|
        invariant lines == before + TraceLines(recentTraces[..k])
      {
        TraceLinesSnoc(recentTraces, k);
        lines := lines + [TraceLine(recentTraces[k])];
      }
      assert recentTraces[..|recentTraces|] == recentTraces;
      assert lines == body + ([TracesTitle] + TraceLines(recentTraces));
    } else {
      assert lines == body + [];
    }
    lines := lines + [Footer];
    assert lines == BlockLines(intent, recentTraces);
    block := Join(lines, "\n");
  }

  lemma BulletsSnoc(items: seq<string>, k: int)
    requires 0 <= k < |items|
    ensures Bullets(items[..k + 1]) == Bullets(items[..k]) + [Bullet(items[k])]
  {
  }

  lemma TraceLinesSnoc(traces: seq<TraceEntry>, k: int)
    requires 0 <= k < |traces|
    ensures TraceLines(traces[..k + 1]) == TraceLines(traces[..k]) + [TraceLine(traces[k])]
  {
  }

  /** `injectContext`. Without a truthy intent id, or for an id the registry does not
      hold, it succeeds and leaves the context alone; a registry that cannot be read
      becomes a plain failure carrying its message. Otherwise the block for the
      intent and its last `RecentTraceCount` traces is stored under `intent_context`
      and returned as the data; nothing else in the context changes. */
  function InjectContext(ctx: HookContext, registry: RegistryRead, log: seq<LogLine>): (out: PreStep)
    ensures out.Returned?
    ensures !Truthy(ctx.intentId) ==> out == Returned(Success(None), ctx)
    ensures Truthy(ctx.intentId) && registry.ReadFailed? ==>
              out == Returned(Failure(registry.message, false), ctx)
    ensures Truthy(ctx.intentId) && registry.Loaded? && ctx.intentId.value !in registry.intents ==>
              out == Returned(Success(None), ctx)
    ensures Truthy(ctx.intentId) && registry.Loaded? && ctx.intentId.value in registry.intents ==>
              var traces := TracesByIntent(log, ctx.intentId.value, RecentTraceCount);
              && |traces| <= RecentTraceCount
              && out.result == Success(Some(Block(registry.intents[ctx.intentId.value], traces)))
              && out.context == ctx.(toolArgs := ctx.toolArgs["intent_context" := out.result.data.value])
    ensures out.result.Success? && out.result.data.None? ==> out.context == ctx
    ensures out.result.Failure? ==> out.context == ctx && !out.result.requiresHumanIntervention
  {
    if !Truthy(ctx.intentId) then Returned(Success(None), ctx)
    else
      match registry
      case ReadFailed(message) => Returned(Failure(message, false), ctx)
      case Loaded(intents) =>
        var id := ctx.intentId.value;
        if id !in intents then Returned(Success(None), ctx)
        else
          var traces := TracesByIntent(log, id, RecentTraceCount);
          var block := Block(intents[id], traces);
          Returned(Success(Some(block)), ctx.(toolArgs := ctx.toolArgs["intent_context" := block]))
  }

  /** No part of the block holds a line break when none of the intent's texts does. */
  predicate SingleLineFields(intent: BusinessIntent, traces: seq<TraceEntry>) {
    && '\n' !in intent.id && '\n' !in intent.name
    && (forall k :: 0 <= k < |intent.constraints| ==> '\n' !in intent.constraints[k])
    && (forall k :: 0 <= k < |intent.ownedScope| ==> '\n' !in intent.ownedScope[k])
    && (forall k :: 0 <= k < |traces| ==> '\n' !in TraceLine(traces[k]))
  }

  /** Splitting the block at line breaks gives back exactly its lines, so the block
      has the promised number of lines: 5 plus one per constraint and scope pattern,
      plus a title and one per trace when there are traces. */
  lemma BlockSplitsIntoItsLines(intent: BusinessIntent, traces: seq<TraceEntry>)
    requires SingleLineFields(intent, traces)
    ensures Split(Block(intent, traces), '\n') == BlockLines(intent, traces)
    ensures |Split(Block(intent, traces), '\n')|
              == 5 + |intent.constraints| + |intent.ownedScope| + (if |traces| > 0 then 1 + |traces| else 0)
  {
    var r := BlockLines(intent, traces);
    forall k | 0 <= k < |r| ensures '\n' !in r[k] {
      var c := |intent.constraints|;
      var s := |intent.ownedScope|;
      if 3 <= k < 3 + c {
        assert r[k] == "  - " + intent.constraints[k - 3];
      } else if 4 + c <= k < 4 + c + s {
        assert r[k] == "  - " + intent.ownedScope[k - 4 - c];
      } else if |traces| > 0 && 5 + c + s <= k < |r| - 1 {
        assert r[k] == TraceLine(traces[k - 5 - c - s]);
      }
    }
    SplitJoin(r, '\n');
  }

  /** The injected block shows at most the last five traces of the intent: with
      single-line fields its line count is bounded accordingly. */
  lemma InjectedBlockIsBounded(ctx: HookContext, intents: map<string, BusinessIntent>, log: seq<LogLine>)
    requires Truthy(ctx.intentId) && ctx.intentId.value in intents
    requires SingleLineFields(intents[ctx.intentId.value], TracesByIntent(log, ctx.intentId.value, RecentTraceCount))
    ensures var out := InjectContext(ctx, Loaded(intents), log);
            var intent := intents[ctx.intentId.value];
            && out.result.Success? && out.result.data.Some?
            && |Split(out.result.data.value, '\n')| <= 11 + |intent.constraints| + |intent.ownedScope|
            && out.context.toolArgs["intent_context"] == out.result.data.value
  {
    var traces := TracesByIntent(log, ctx.intentId.value, RecentTraceCount);
    BlockSplitsIntoItsLines(intents[ctx.intentId.value], traces);
  }
}
