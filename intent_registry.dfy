/** The intent registry service: the intents by id (in insertion order, as the
    store file is written back in that order), the file-to-intent mapping, and the
    two files it keeps, `active_intents.yaml` (as the sequence of records it holds)
    and `intent_map.md` (as text). */
module IntentRegistry {
  import opened Text
  import opened HookTypes
  import opened IntentMapDoc

  /** The intents table: a JavaScript `Map`, whose values come out in insertion order. */
  datatype IntentTable = IntentTable(order: seq<string>, byId: map<string, BusinessIntent>)

  /** Every id is listed once, the listed ids are the keys, and each intent sits under its own id. */
  ghost predicate WellFormed(t: IntentTable) {
    && (forall i, j :: 0 <= i < j < |t.order| ==> t.order[i] != t.order[j])
    && (forall id :: id in t.order <==> id in t.byId)
    && (forall id :: id in t.byId ==> t.byId[id].id == id)
  }

  const EmptyTable: IntentTable := IntentTable([], map[])

  /** `intents.set(intent.id, intent)`: a new id goes last, a known one keeps its place. */
  function Upsert(t: IntentTable, intent: BusinessIntent): (r: IntentTable)
    requires WellFormed(t)
    ensures WellFormed(r)
    ensures r.byId == t.byId[intent.id := intent]
    ensures intent.id in t.byId ==> r.order == t.order
    ensures intent.id !in t.byId ==> r.order == t.order + [intent.id]
  {
    IntentTable(if intent.id in t.byId then t.order else t.order + [intent.id], t.byId[intent.id := intent])
  }

  /** `Array.from(intents.values())`: the snapshot `persistIntents` writes. */
  function Values(t: IntentTable): (r: seq<BusinessIntent>)
    requires WellFormed(t)
    ensures |r| == |t.order|
    ensures forall k :: 0 <= k < |r| ==> r[k] == t.byId[t.order[k]]
  {
    seq(|t.order|, k requires 0 <= k < |t.order| => t.byId[t.order[k]])
  }

  /** The records of a loaded store file upserted one after the other. */
  function MergeAll(t: IntentTable, xs: seq<BusinessIntent>): (r: IntentTable)
    requires WellFormed(t)
    ensures WellFormed(r)
    decreases |xs|
  {
    if xs == [] then t else Upsert(MergeAll(t, xs[..|xs| - 1]), xs[|xs| - 1])
  }

  /** The last record of each id among `xs`. */
  function LastById(xs: seq<BusinessIntent>): (r: map<string, BusinessIntent>)
    ensures forall k :: 0 <= k < |xs| ==> xs[k].id in r
    ensures forall id :: id in r ==> exists k :: 0 <= k < |xs| && xs[k].id == id
    decreases |xs|
  {
    if xs == [] then map[]
    else
      var init := xs[..|xs| - 1];
      var r := LastById(init)[xs[|xs| - 1].id := xs[|xs| - 1]];
      assert forall k :: 0 <= k < |xs| - 1 ==> xs[k] == init[k];
      r
  }

  /** Each id among `xs` holds the last record with that id. */
  lemma {:induction false} LastByIdHoldsLast(xs: seq<BusinessIntent>)
    ensures forall k :: 0 <= k < |xs| && LastOfId(xs, k) ==> LastById(xs)[xs[k].id] == xs[k]
    decreases |xs|
  {
    if xs != [] {
      var init := xs[..|xs| - 1];
      LastByIdHoldsLast(init);
      forall k | 0 <= k < |xs| - 1 && LastOfId(xs, k) ensures LastById(xs)[xs[k].id] == xs[k] {
        assert xs[k] == init[k];
        assert xs[|xs| - 1].id != xs[k].id;
        assert LastOfId(init, k) by {
          forall j | k < j < |init| ensures init[j].id != init[k].id {
            assert init[j] == xs[j];
          }
        }
      }
    }
  }

  /** No later record of `xs` has the id of `xs[k]`. */
  ghost predicate LastOfId(xs: seq<BusinessIntent>, k: int)
    requires 0 <= k < |xs|
  {
    forall j :: k < j < |xs| ==> xs[j].id != xs[k].id
  }

  /** Merging keeps every intent the table had unless the file has a record with its
      id, in which case the last such record wins: nothing is ever removed. */
  lemma {:induction false} MergeAllOverlays(t: IntentTable, xs: seq<BusinessIntent>)
    requires WellFormed(t)
    ensures MergeAll(t, xs).byId == t.byId + LastById(xs)
    decreases |xs|
  {
    if xs != [] {
      var init := xs[..|xs| - 1];
      var x := xs[|xs| - 1];
      MergeAllOverlays(t, init);
      assert MergeAll(t, xs).byId == (t.byId + LastById(init))[x.id := x];
      OverlayUpdate(t.byId, LastById(init), x.id, x);
    }
  }

  /** Updating an overlay is overlaying the update. */
  lemma OverlayUpdate<K, V>(m: map<K, V>, l: map<K, V>, k: K, v: V)
    ensures (m + l)[k := v] == m + l[k := v]
  {
  }

  /** Merging records whose ids are all known keeps the order. */
  lemma {:induction false} MergeAllKeepsOrder(t: IntentTable, xs: seq<BusinessIntent>)
    requires WellFormed(t)
    requires forall k :: 0 <= k < |xs| ==> xs[k].id in t.byId
    ensures MergeAll(t, xs).order == t.order
    ensures MergeAll(t, xs).byId.Keys == t.byId.Keys
    decreases |xs|
  {
    if xs != [] {
      MergeAllKeepsOrder(t, xs[..|xs| - 1]);
    }
  }

  /** `initialize` never removes an intent, and every record of the file is loaded. */
  lemma MergeAllNeverRemoves(t: IntentTable, xs: seq<BusinessIntent>)
    requires WellFormed(t)
    ensures t.byId.Keys <= MergeAll(t, xs).byId.Keys
    ensures forall k :: 0 <= k < |xs| ==> xs[k].id in MergeAll(t, xs).byId
    ensures forall id :: id in t.byId && id !in LastById(xs) ==> MergeAll(t, xs).byId[id] == t.byId[id]
    ensures forall k :: 0 <= k < |xs| && LastOfId(xs, k) ==> MergeAll(t, xs).byId[xs[k].id] == xs[k]
  {
    var merged := MergeAll(t, xs).byId;
    var last := LastById(xs);
    MergeAllOverlays(t, xs);
    assert merged == t.byId + last;
    LastByIdHoldsLast(xs);
    forall k | 0 <= k < |xs| && LastOfId(xs, k) ensures merged[xs[k].id] == xs[k] {
      assert xs[k].id in last && last[xs[k].id] == xs[k];
    }
  }

  /** Reloading an unchanged store file changes nothing: merging is idempotent. */
  lemma MergeAllIdempotent(t: IntentTable, xs: seq<BusinessIntent>)
    requires WellFormed(t)
    ensures MergeAll(MergeAll(t, xs), xs) == MergeAll(t, xs)
  {
    var once := MergeAll(t, xs);
    MergeAllOverlays(t, xs);
    MergeAllOverlays(once, xs);
    MergeAllKeepsOrder(once, xs);
    assert once.byId + LastById(xs) == (t.byId + LastById(xs)) + LastById(xs);
    assert (t.byId + LastById(xs)) + LastById(xs) == t.byId + LastById(xs);
  }

  /** Upserting an intent already stored under its id changes nothing. */
  lemma UpsertStored(t: IntentTable, id: string)
    requires WellFormed(t) && id in t.byId
    ensures Upsert(t, t.byId[id]) == t
  {
    assert t.byId[id := t.byId[id]] == t.byId;
  }

  /** Round trip: the snapshot `persistIntents` writes reloads to the same table. */
  lemma {:induction false} SnapshotReloads(t: IntentTable, n: nat)
    requires WellFormed(t) && n <= |t.order|
    ensures MergeAll(t, Values(t)[..n]) == t
  {
    if n > 0 {
      var vs := Values(t)[..n];
      assert vs[..n - 1] == Values(t)[..n - 1];
      SnapshotReloads(t, n - 1);
      assert t.order[n - 1] in t.byId;
      UpsertStored(t, t.order[n - 1]);
    }
  }

  /** The snapshot holds every stored intent, each once and under its own id. */
  lemma SnapshotHoldsAll(t: IntentTable)
    requires WellFormed(t)
    ensures forall id :: id in t.byId ==> t.byId[id] in Values(t)
    ensures MergeAll(t, Values(t)) == t
  {
    forall id | id in t.byId ensures t.byId[id] in Values(t) {
      var k :| 0 <= k < |t.order| && t.order[k] == id;
      assert Values(t)[k] == t.byId[id];
    }
    SnapshotReloads(t, |t.order|);
    assert Values(t)[..|t.order|] == Values(t);
  }

  /** `active_intents.yaml` as `initialize` finds it: absent, not YAML, without a
      truthy `active_intents`, with one that cannot be iterated, or with a list of records. */
  datatype StoreFile =
    | Missing
    | Unparseable
    | NoIntents
    | NotAList
    | Intents(records: seq<BusinessIntent>)

  /** The records `initialize` merges, or `None` when it falls back to writing the template. */
  function Loadable(store: StoreFile): Option<seq<BusinessIntent>> {
    match store
    case Intents(xs) => Some(xs)
    case NoIntents => Some([])
    case _ => None
  }

  /** The template `createDefaultIntentsFile` writes: an empty `active_intents` list. */
  const TemplateStore: StoreFile := Intents([])

  /** The document read (or the default one), with "## id" appended when missing. */
  method SectionAdded(doc: Option<string>, intentId: string) returns (content: string)
    ensures content == WithSection(doc, intentId)
  {
    content := if doc.Some? then doc.value else DefaultMap;
    if !Contains(content, HeadingMarker(intentId)) {
      content := content + "\n## " + intentId + "\n\n";
    }
  }

  /** The text `updateIntentMapMarkdown` builds from the map file it read (or the
      default document when there is none). */
  method MapTextWithEntry(doc: Option<string>, intentId: string, path: string, timestamp: string) returns (content: string)
    ensures content == UpdatedMapText(doc, intentId, path, timestamp)
  {
    var withSection := SectionAdded(doc, intentId);
    if Contains(withSection, FileEntry(path)) {
      return withSection;
    }
    var lines := Split(withSection, '\n');
    var sectionIndex := FindLine(lines, HeadingMarker(intentId));
    if sectionIndex == -1 {
      return withSection;
    }
    var insertIndex := FindSectionEnd(lines, sectionIndex + 1);
    content := Join(lines[..insertIndex] + [EntryLine(path, timestamp)] + lines[insertIndex..], "\n");
    assert content == SpliceEntry(lines, sectionIndex, HeadingMarker(intentId), EntryLine(path, timestamp));
  }

  /** The scan for the end of a section: from `from`, the first line that starts
      with "##", or the end of the document. */
  method FindSectionEnd(lines: seq<string>, from: nat) returns (insertIndex: nat)
    requires from <= |lines|
    ensures insertIndex == SectionEnd(lines, from)
    ensures from <= insertIndex <= |lines|
    ensures forall k :: from <= k < insertIndex ==> !StartsWith(lines[k], "##")
    ensures insertIndex < |lines| ==> StartsWith(lines[insertIndex], "##")
  {
    insertIndex := from;
    while insertIndex < |lines| && !StartsWith(lines[insertIndex], "##")
      invariant from <= insertIndex <= |lines|
      invariant SectionEnd(lines, insertIndex) == SectionEnd(lines, from)
      decreases |lines| - insertIndex
    {
      insertIndex := insertIndex + 1;
    }
  }

  /** What `getIntent` answers: the intent, `null`, or the exception of the reload. */
  datatype Lookup = Found(intent: BusinessIntent) | NotFound | Raised(message: string)

  class IntentService {
    var table: IntentTable
    var fileToIntent: map<string, string>
    var store: StoreFile
    /** `intent_map.md`; `None` when it cannot be read. */
    var mapDoc: Option<string>

    ghost predicate Valid()
      reads this
    {
      WellFormed(table)
    }

    /** A service over the workspace's two files, with nothing loaded yet. */
    constructor (store: StoreFile, mapDoc: Option<string>)
      ensures Valid()
      ensures table == EmptyTable && fileToIntent == map[]
      ensures this.store == store && this.mapDoc == mapDoc
    {
      table := EmptyTable;
      fileToIntent := map[];
      this.store := store;
      this.mapDoc := mapDoc;
    }

    /** `initialize`: merges the store's records into the table (never removing one);
        a store it cannot load is replaced by the template, and when that write fails
        its error escapes before the map is loaded. Then `loadIntentMap`. */
    method Initialize(templateWriteError: Option<string>) returns (error: Option<string>)
      requires Valid()
      modifies this`table, this`store, this`fileToIntent
      ensures Valid()
      ensures error == (if Loadable(old(store)).None? then templateWriteError else None)
      ensures table == (if Loadable(old(store)).Some? then MergeAll(old(table), Loadable(old(store)).value) else old(table))
      ensures store == (if Loadable(old(store)).None? && error.None? then TemplateStore else old(store))
      ensures fileToIntent == (if error.Some? then old(fileToIntent) else ParseMap(mapDoc, old(fileToIntent)))
    {
      error := None;
      match store {
        case Intents(xs) =>
          MergeRecords(xs);
        case NoIntents =>
        case _ =>
          if templateWriteError.Some? {
            error := templateWriteError;
            return;
          }
          store := TemplateStore;
      }
      LoadIntentMap();
    }

    /** The loop of `initialize` over the loaded records. */
    method MergeRecords(xs: seq<BusinessIntent>)
      requires Valid()
      modifies this`table
      ensures Valid()
      ensures table == MergeAll(old(table), xs)
    {
      for k := 0 to |xs|
        invariant WellFormed(table)
        invariant table == MergeAll(old(table), xs[..k])
      {
        assert xs[..k + 1][..k] == xs[..k];
        table := Upsert(table, xs[k]);
      }
      assert xs[..|xs|] == xs;
    }

    /** `loadIntentMap`: reads the map file line by line, tracking the latest
        `## INT-<n>` heading and mapping each bullet's path to it. */
    method LoadIntentMap()
      modifies this`fileToIntent
      ensures fileToIntent == ParseMap(mapDoc, old(fileToIntent))
    {
      if mapDoc.None? {
        return;
      }
      var lines := Split(mapDoc.value, '\n');
      var currentIntent: Option<string> := None;
      ghost var m0 := fileToIntent;
      for i := 0 to |lines|
        invariant currentIntent.Some? ==> IsIntentId(currentIntent.value)
        invariant ParseLines(lines[i..], ParseState(currentIntent, fileToIntent))
                  == ParseLines(lines, ParseState(None, m0))
      {
        ParseAt(lines, i, ParseState(currentIntent, fileToIntent));
        var intentMatch := HeadingCapture(lines[i]);
        if intentMatch.Some? {
          currentIntent := intentMatch;
          continue;
        }
        var fileMatch := BulletCapture(lines[i]);
        if fileMatch.Some? && currentIntent.Some? {
          fileToIntent := fileToIntent[fileMatch.value := currentIntent.value];
        }
      }
      assert lines[0..] == lines;
    }

    /** `getIntent`: reloads, then looks the id up. */
    method GetIntent(intentId: string, templateWriteError: Option<string>) returns (r: Lookup)
      requires Valid()
      modifies this`table, this`store, this`fileToIntent
      ensures Valid()
      ensures r.Raised? <==> Loadable(old(store)).None? && templateWriteError.Some?
      ensures !r.Raised? ==> (r.Found? <==> intentId in table.byId)
      ensures r.Found? ==> r.intent == table.byId[intentId] && r.intent.id == intentId
      ensures intentId in old(table.byId) && !r.Raised? ==> r.Found?
      ensures table == (if Loadable(old(store)).Some? then MergeAll(old(table), Loadable(old(store)).value) else old(table))
      ensures store == (if Loadable(old(store)).None? && !r.Raised? then TemplateStore else old(store))
      ensures fileToIntent == (if r.Raised? then old(fileToIntent) else ParseMap(mapDoc, old(fileToIntent)))
      ensures r.Raised? ==> templateWriteError.Some? && r.message == templateWriteError.value
      ensures Loadable(old(store)).Some? && (exists k :: 0 <= k < |Loadable(old(store)).value| && Loadable(old(store)).value[k].id == intentId) ==>
                r.Found?
    {
      var error := Initialize(templateWriteError);
      if error.Some? {
        return Raised(error.value);
      }
      if intentId in table.byId {
        if Loadable(old(store)).Some? {
          MergeAllNeverRemoves(old(table), Loadable(old(store)).value);
        }
        r := Found(table.byId[intentId]);
      } else {
        if Loadable(old(store)).Some? {
          MergeAllNeverRemoves(old(table), Loadable(old(store)).value);
        }
        r := NotFound;
      }
    }

    /** `updateIntent`: upserts in memory, then writes the whole table back as the
        store file; a failed write leaves the file as it was (the table keeps the change). */
    method UpdateIntent(intent: BusinessIntent, writeOk: bool) returns (ok: bool)
      requires Valid()
      modifies this`table, this`store
      ensures Valid()
      ensures ok == writeOk
      ensures table == Upsert(old(table), intent)
      ensures store == if writeOk then Intents(Values(table)) else old(store)
    {
      table := Upsert(table, intent);
      if writeOk {
        store := Intents(Values(table));
      }
      ok := writeOk;
    }

    /** `addFileToIntentMap`: maps the path to the intent (replacing any earlier
        association), then records it in the map file. */
    method AddFileToIntentMap(intentId: string, path: string, timestamp: string, writeOk: bool) returns (ok: bool)
      modifies this`fileToIntent, this`mapDoc
      ensures ok == writeOk
      ensures fileToIntent == old(fileToIntent)[path := intentId]
      ensures mapDoc == if writeOk then Some(UpdatedMapText(old(mapDoc), intentId, path, timestamp)) else old(mapDoc)
    {
      fileToIntent := fileToIntent[path := intentId];
      ok := UpdateIntentMapMarkdown(intentId, path, timestamp, writeOk);
    }

    /** `updateIntentMapMarkdown`: adds the section when missing and, unless the file
        already mentions "- path", splices the bullet in at the end of the section;
        the text is written back only when the write succeeds. */
    method UpdateIntentMapMarkdown(intentId: string, path: string, timestamp: string, writeOk: bool) returns (ok: bool)
      modifies this`mapDoc
      ensures ok == writeOk
      ensures mapDoc == if writeOk then Some(UpdatedMapText(old(mapDoc), intentId, path, timestamp)) else old(mapDoc)
    {
      var content := MapTextWithEntry(mapDoc, intentId, path, timestamp);
      if writeOk {
        mapDoc := Some(content);
      }
      ok := writeOk;
    }
  }
}
