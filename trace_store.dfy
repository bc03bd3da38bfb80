/** The append-only audit log (`agent_trace.jsonl`) and its filtered read. The
    log is one line per record; a line either parses to a trace entry or is
    malformed. A missing log reads as the empty log. */
module TraceStore {
  import opened HookTypes

  datatype LogLine = Record(entry: TraceEntry) | Malformed(text: string)

  /** The default `limit` of `getTracesByIntent`. */
  const DefaultLimit: int := 10

  /** The records of `log` for `intentId`, in log order. */
  function Matching(log: seq<LogLine>, intentId: string): (r: seq<TraceEntry>)
    ensures |r| <= |log|
    ensures forall k :: 0 <= k < |r| ==> r[k].intentId == intentId
  {
    if log == [] then []
    else
      var last := log[|log| - 1];
      Matching(log[..|log| - 1], intentId)
        + (if last.Record? && last.entry.intentId == intentId then [last.entry] else [])
  }

  /** Filtering distributes over concatenation, so the matches keep log order. */
  lemma {:induction false} MatchingAppend(a: seq<LogLine>, b: seq<LogLine>, intentId: string)
    ensures Matching(a + b, intentId) == Matching(a, intentId) + Matching(b, intentId)
    decreases |b|
  {
    if b == [] {
      assert a + b == a;
    } else {
      assert (a + b)[..|a + b| - 1] == a + b[..|b| - 1];
      MatchingAppend(a, b[..|b| - 1], intentId);
    }
  }

  /** Every record of the log with the intent id is among the matches. */
  lemma {:induction false} MatchingComplete(log: seq<LogLine>, intentId: string, k: int)
    requires 0 <= k < |log| && log[k].Record? && log[k].entry.intentId == intentId
    ensures log[k].entry in Matching(log, intentId)
  {
    assert log == log[..k] + [log[k]] + log[k + 1..];
    MatchingAppend(log[..k] + [log[k]], log[k + 1..], intentId);
    MatchingAppend(log[..k], [log[k]], intentId);
    assert Matching([log[k]], intentId) == [log[k].entry] by {
      assert [log[k]][..0] == [];
    }
  }

  /** `s.slice(start)` */
  function SliceFrom<T>(s: seq<T>, start: int): seq<T> {
    var from :=
      if start < 0 then (if |s| + start < 0 then 0 else |s| + start)
      else (if start > |s| then |s| else start);
    s[from..]
  }

  /** `getTracesByIntent(intentId, limit)`: the matches, cut by `slice(-limit)`.
      The result is a suffix of the matches: the last `limit` of them when
      `limit >= 1`, all of them when `limit == 0`. */
  function TracesByIntent(log: seq<LogLine>, intentId: string, limit: int): (r: seq<TraceEntry>)
    ensures forall k :: 0 <= k < |r| ==> r[k].intentId == intentId
    ensures exists d :: 0 <= d <= |Matching(log, intentId)| && r == Matching(log, intentId)[d..]
    ensures limit >= 1 ==>
              |r| == (if |Matching(log, intentId)| < limit then |Matching(log, intentId)| else limit)
    ensures limit == 0 ==> r == Matching(log, intentId)
  {
    var m := Matching(log, intentId);
    var r := SliceFrom(m, -limit);
    assert limit == 0 ==> r == m[0..] == m;
    r
  }

  /** Round trip: a record appended under an intent is the last one read back for it. */
  lemma AppendedTraceIsReturned(log: seq<LogLine>, entry: TraceEntry, limit: int)
    requires limit >= 1
    ensures var r := TracesByIntent(log + [Record(entry)], entry.intentId, limit);
            |r| >= 1 && r[|r| - 1] == entry
  {
    var log' := log + [Record(entry)];
    assert log'[..|log'| - 1] == log;
    var m := Matching(log', entry.intentId);
    assert m == Matching(log, entry.intentId) + [entry];
    var r := TracesByIntent(log', entry.intentId, limit);
    assert r == SliceFrom(m, -limit) == m[|m| - |r|..];
    assert r[|r| - 1] == m[|m| - 1];
  }

  /** `TraceService`: the log is its state; appends are applied one at a time,
      in the order received. */
  class TraceService {
    var log: seq<LogLine>

    /** A service over the log already on disk. */
    constructor (existing: seq<LogLine>)
      ensures log == existing
    {
      log := existing;
    }

    /** `appendTrace`: adds exactly one record after the existing ones when the
        write succeeds; a failed write leaves the log as it was and is reported,
        and nothing about it holds back a later append. */
    method AppendTrace(entry: TraceEntry, writeOk: bool) returns (ok: bool)
      modifies this`log
      ensures ok == writeOk
      ensures log == if writeOk then old(log) + [Record(entry)] else old(log)
    {
      if writeOk {
        log := log + [Record(entry)];
      }
      ok := writeOk;
    }

    /** `getTracesByIntent`: scans every line, skips malformed ones and keeps the
        records of the intent, then keeps the last `limit` of them. */
    method GetTracesByIntent(intentId: string, limit: int := DefaultLimit) returns (entries: seq<TraceEntry>)
      ensures entries == TracesByIntent(log, intentId, limit)
      ensures forall k :: 0 <= k < |entries| ==> entries[k].intentId == intentId
    {
      var matches: seq<TraceEntry> := [];
      for i := 0 to |log|
        invariant matches == Matching(log[..i], intentId)
      {
        assert log[..i + 1][..i] == log[..i];
        match log[i] {
          case Record(e) =>
            if e.intentId == intentId {
              matches := matches + [e];
            }
          case Malformed(_) =>
        }
      }
      assert log[..|log|] == log;
      entries := SliceFrom(matches, -limit);
    }
  }
}
