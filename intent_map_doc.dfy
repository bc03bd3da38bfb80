/** The `intent_map.md` document: a markdown file with one `## INT-<n>` section per
    intent and one `- <path> (<timestamp>)` bullet per file. This module holds its
    line-level grammar (the two regular expressions the loader uses, with the
    JavaScript matching order written out), the parser, and the text update that
    adds a file under an intent. */
module IntentMapDoc {
  import opened Text
  import opened HookTypes

  /** The content used when the map file cannot be read. */
  const DefaultMap: string := "# Intent Map\n\n"

  function HeadingMarker(intentId: string): string {
    "## " + intentId
  }

  function FileEntry(path: string): string {
    "- " + path
  }

  function EntryLine(path: string, timestamp: string): string {
    FileEntry(path) + " (" + timestamp + ")"
  }

  /** Length of the white-space run at the front of `s`. */
  function SpaceRun(s: string): (n: nat)
    ensures n <= |s|
    ensures forall i :: 0 <= i < n ==> IsSpace(s[i])
    ensures n < |s| ==> !IsSpace(s[n])
  {
    if s != [] && IsSpace(s[0]) then 1 + SpaceRun(s[1..]) else 0
  }

  /** Length of the digit run at the front of `s`. */
  function DigitRun(s: string): (n: nat)
    ensures n <= |s|
    ensures forall i :: 0 <= i < n ==> IsDigit(s[i])
    ensures n < |s| ==> !IsDigit(s[n])
  {
    if s != [] && IsDigit(s[0]) then 1 + DigitRun(s[1..]) else 0
  }

  /** Length of the run at the front of `s` that a regular-expression `.` matches. */
  function DotRun(s: string): (n: nat)
    ensures n <= |s|
    ensures forall i :: 0 <= i < n ==> !IsLineTerminator(s[i])
    ensures n < |s| ==> IsLineTerminator(s[n])
  {
    if s != [] && !IsLineTerminator(s[0]) then 1 + DotRun(s[1..]) else 0
  }

  /** An intent id the heading pattern recognises: "INT-" and at least one digit. */
  predicate IsIntentId(id: string) {
    |id| >= 5 && id[..4] == "INT-" && forall i :: 4 <= i < |id| ==> IsDigit(id[i])
  }

  /** The capture of `/^##\s+(INT-\d+)/` on a line, if it matches. */
  function HeadingCapture(line: string): (r: Option<string>)
    ensures r.Some? ==> IsIntentId(r.value) && StartsWith(line, "##")
  {
    if |line| >= 2 && line[..2] == "##" then
      var t := line[2..];
      var u := t[SpaceRun(t)..];
      if SpaceRun(t) >= 1 && |u| >= 5 && u[..4] == "INT-" && IsDigit(u[4]) then
        Some(u[..4 + DigitRun(u[4..])])
      else None
    else None
  }

  /** `\s+\(` matches at index `b`: white space from `b` on, then "(" right after it.
      Only the whole run can be followed by "(", so it is the only candidate. */
  predicate TailOk(line: string, b: int)
    requires 0 <= b <= |line|
  {
    var m := SpaceRun(line[b..]);
    m >= 1 && b + m < |line| && line[b + m] == '('
  }

  /** The greedy `(.+)` starting at `start`: the largest end in `start + 1 .. e` after
      which `\s+\(` matches, tried from `e` downwards. */
  function BestEnd(line: string, start: int, e: int): (r: Option<int>)
    requires 0 <= start <= e <= |line|
    ensures r.Some? ==> start < r.value <= e && TailOk(line, r.value)
    decreases e
  {
    if e <= start then None
    else if TailOk(line, e) then Some(e)
    else BestEnd(line, start, e - 1)
  }

  /** The greedy leading `\s+` of the bullet pattern, tried with `a` spaces and then
      fewer; for each the capture runs from after the spaces to `BestEnd`. */
  function TryLead(line: string, a: nat): Option<string>
    requires a < |line|
    decreases a
  {
    if a == 0 then None
    else
      var start := 1 + a;
      match BestEnd(line, start, start + DotRun(line[start..]))
      case Some(b) => Some(line[start..b])
      case None => TryLead(line, a - 1)
  }

  /** The capture of `/^-\s+(.+)\s+\(/` on a line, if it matches. */
  function BulletCapture(line: string): (r: Option<string>)
    ensures r.Some? ==> line != [] && line[0] == '-'
  {
    if line != [] && line[0] == '-' then TryLead(line, SpaceRun(line[1..])) else None
  }

  /** The loader's state: the intent of the latest heading, and the mapping so far. */
  datatype ParseState = ParseState(current: Option<string>, fileToIntent: map<string, string>)

  /** One line of the loader: a heading switches the current intent; a bullet under
      a heading maps its path to that intent; anything else is skipped. */
  function ParseStep(st: ParseState, line: string): ParseState {
    var heading := HeadingCapture(line);
    if heading.Some? then st.(current := heading)
    else
      var bullet := BulletCapture(line);
      if bullet.Some? && st.current.Some? then
        st.(fileToIntent := st.fileToIntent[bullet.value := st.current.value])
      else st
  }

  /** The loader over a sequence of lines. Entries it adds or overwrites map to
      intent ids; the keys it starts from are kept. */
  function ParseLines(lines: seq<string>, st: ParseState): (r: ParseState)
    requires st.current.Some? ==> IsIntentId(st.current.value)
    ensures r.current.Some? ==> IsIntentId(r.current.value)
    ensures st.fileToIntent.Keys <= r.fileToIntent.Keys
    ensures forall path :: path in r.fileToIntent ==>
              IsIntentId(r.fileToIntent[path])
              || (path in st.fileToIntent && r.fileToIntent[path] == st.fileToIntent[path])
    decreases |lines|
  {
    if lines == [] then st else ParseLines(lines[1..], ParseStep(st, lines[0]))
  }

  /** What `loadIntentMap` adds to the mapping `m0`: nothing when the file cannot be
      read, otherwise the entries the loader finds in its lines. */
  function ParseMap(doc: Option<string>, m0: map<string, string>): map<string, string> {
    if doc.None? then m0 else ParseLines(Split(doc.value, '\n'), ParseState(None, m0)).fileToIntent
  }

  /** `lines.findIndex(l => l.includes(needle))`, from index `i` on. */
  function FindLineFrom(lines: seq<string>, needle: string, i: nat): (r: int)
    requires i <= |lines|
    ensures r == -1 || i <= r < |lines|
    ensures r >= 0 ==> Contains(lines[r], needle) && forall k :: i <= k < r ==> !Contains(lines[k], needle)
    ensures r == -1 ==> forall k :: i <= k < |lines| ==> !Contains(lines[k], needle)
    decreases |lines| - i
  {
    if i == |lines| then -1
    else if Contains(lines[i], needle) then i
    else FindLineFrom(lines, needle, i + 1)
  }

  /** `lines.findIndex(l => l.includes(needle))`: the first line holding the needle, or -1. */
  function FindLine(lines: seq<string>, needle: string): (r: int)
    ensures -1 <= r < |lines|
    ensures r >= 0 ==> Contains(lines[r], needle) && forall k :: 0 <= k < r ==> !Contains(lines[k], needle)
    ensures r == -1 ==> forall k :: 0 <= k < |lines| ==> !Contains(lines[k], needle)
  {
    FindLineFrom(lines, needle, 0)
  }

  /** The end of a section: the first line from `i` on that starts with "##", or the
      end of the document. */
  function SectionEnd(lines: seq<string>, i: nat): (r: nat)
    requires i <= |lines|
    ensures i <= r <= |lines|
    ensures forall k :: i <= k < r ==> !StartsWith(lines[k], "##")
    ensures r < |lines| ==> StartsWith(lines[r], "##")
    decreases |lines| - i
  {
    if i < |lines| && !StartsWith(lines[i], "##") then SectionEnd(lines, i + 1) else i
  }

  /** The document with the section heading added when the text "## id" is missing. */
  function WithSection(doc: Option<string>, intentId: string): (r: string)
    ensures Contains(r, HeadingMarker(intentId))
  {
    var content := doc.GetOr(DefaultMap);
    if Contains(content, HeadingMarker(intentId)) then content
    else
      ContainsMiddle(content + "\n", HeadingMarker(intentId), "\n\n");
      assert content + "\n## " + intentId + "\n\n" == content + "\n" + HeadingMarker(intentId) + "\n\n";
      content + "\n## " + intentId + "\n\n"
  }

  /** Adding the section keeps the text read (or the default) as the prefix: unchanged
      when it already holds the heading, otherwise followed by "\n## id\n\n". */
  lemma WithSectionKeepsText(doc: Option<string>, intentId: string)
    ensures StartsWith(WithSection(doc, intentId), doc.GetOr(DefaultMap))
    ensures Contains(doc.GetOr(DefaultMap), HeadingMarker(intentId)) ==> WithSection(doc, intentId) == doc.GetOr(DefaultMap)
    ensures !Contains(doc.GetOr(DefaultMap), HeadingMarker(intentId)) ==>
              WithSection(doc, intentId)[|doc.GetOr(DefaultMap)|..] == "\n## " + intentId + "\n\n"
  {
  }

  /** The text `updateIntentMapMarkdown` writes: the section is added if missing; then,
      unless "- path" already occurs anywhere, the bullet "- path (timestamp)" is
      inserted at the end of the first section whose line holds "## id". */
  function UpdatedMapText(doc: Option<string>, intentId: string, path: string, timestamp: string): (r: string)
    ensures Contains(r, HeadingMarker(intentId))
  {
    var content := WithSection(doc, intentId);
    if Contains(content, FileEntry(path)) then content
    else
      var lines := Split(content, '\n');
      var sectionIndex := FindLine(lines, HeadingMarker(intentId));
      if sectionIndex == -1 then content
      else SpliceEntry(lines, sectionIndex, HeadingMarker(intentId), EntryLine(path, timestamp))
  }

  /** The lines joined again with `entry` inserted at the end of the section whose
      heading line, at `sectionIndex`, holds `heading`; the heading is still there. */
  function SpliceEntry(lines: seq<string>, sectionIndex: nat, heading: string, entry: string): (r: string)
    requires sectionIndex < |lines| && Contains(lines[sectionIndex], heading)
    ensures Contains(r, heading)
  {
    var at := SectionEnd(lines, sectionIndex + 1);
    var updated := lines[..at] + [entry] + lines[at..];
    assert updated[sectionIndex] == lines[sectionIndex];
    JoinContainsPart(updated, "\n", sectionIndex);
    ContainsTransitive(Join(updated, "\n"), lines[sectionIndex], heading);
    Join(updated, "\n")
  }

  /** A second update with the same intent and path leaves the document as the first
      one wrote it, whatever its timestamp: the heading is there and so is "- path"
      (or, when no line holds the heading, the first update changed nothing either). */
  lemma UpdateIsIdempotent(doc: Option<string>, intentId: string, path: string, t1: string, t2: string)
    ensures UpdatedMapText(Some(UpdatedMapText(doc, intentId, path, t1)), intentId, path, t2)
            == UpdatedMapText(doc, intentId, path, t1)
  {
    var content := WithSection(doc, intentId);
    var r := UpdatedMapText(doc, intentId, path, t1);
    assert WithSection(Some(r), intentId) == r;
    if !Contains(content, FileEntry(path)) {
      var lines := Split(content, '\n');
      var sectionIndex := FindLine(lines, HeadingMarker(intentId));
      if sectionIndex != -1 {
        var at := SectionEnd(lines, sectionIndex + 1);
        var updated := lines[..at] + [EntryLine(path, t1)] + lines[at..];
        assert updated[at] == EntryLine(path, t1);
        ContainsMiddle("", FileEntry(path), " (" + t1 + ")");
        assert "" + FileEntry(path) + (" (" + t1 + ")") == EntryLine(path, t1);
        JoinContainsPart(updated, "\n", at);
        ContainsTransitive(r, EntryLine(path, t1), FileEntry(path));
      }
    }
  }

  /** When the bullet is inserted, the written document is, line for line, the
      document with the section ensured and the bullet placed at the section end:
      before the first "##" line after the heading line, or last. */
  lemma InsertedAtSectionEnd(doc: Option<string>, intentId: string, path: string, timestamp: string)
    requires '\n' !in path && '\n' !in timestamp
    requires !Contains(WithSection(doc, intentId), FileEntry(path))
    requires FindLine(Split(WithSection(doc, intentId), '\n'), HeadingMarker(intentId)) != -1
    ensures var lines := Split(WithSection(doc, intentId), '\n');
            var at := SectionEnd(lines, FindLine(lines, HeadingMarker(intentId)) + 1);
            Split(UpdatedMapText(doc, intentId, path, timestamp), '\n')
              == lines[..at] + [EntryLine(path, timestamp)] + lines[at..]
  {
    var content := WithSection(doc, intentId);
    var lines := Split(content, '\n');
    var i := FindLine(lines, HeadingMarker(intentId));
    var at := SectionEnd(lines, i + 1);
    var entry := EntryLine(path, timestamp);
    var updated := lines[..at] + [entry] + lines[at..];
    assert UpdatedMapText(doc, intentId, path, timestamp) == SpliceEntry(lines, i, HeadingMarker(intentId), entry);
    assert SpliceEntry(lines, i, HeadingMarker(intentId), entry) == Join(updated, "\n");
    assert '\n' !in entry by {
      assert entry == "- " + path + " (" + timestamp + ")";
    }
    forall k | 0 <= k < |updated| ensures '\n' !in updated[k] {
      if k < at {
        assert updated[k] == lines[k];
      } else if k > at {
        assert updated[k] == lines[k - 1];
      } else {
        assert updated[k] == entry;
      }
    }
    SplitJoin(updated, '\n');
  }

  /** A run of digits is read whole. */
  lemma DigitRunOfDigits(s: string)
    requires forall i :: 0 <= i < |s| ==> IsDigit(s[i])
    ensures DigitRun(s) == |s|
  {
  }

  /** A run without line terminators is matched whole by `.`. */
  lemma DotRunAtLeast(s: string, n: nat)
    requires n <= |s|
    requires forall i :: 0 <= i < n ==> !IsLineTerminator(s[i])
    ensures DotRun(s) >= n
  {
  }

  /** The heading the updater writes is read back as its intent id. */
  lemma HeadingOf(intentId: string)
    requires IsIntentId(intentId)
    ensures HeadingCapture(HeadingMarker(intentId)) == Some(intentId)
    ensures BulletCapture(HeadingMarker(intentId)) == None
  {
    var line := HeadingMarker(intentId);
    var t := line[2..];
    assert t == [' '] + intentId;
    assert t[1..] == intentId;
    assert SpaceRun(intentId) == 0 by {
      assert intentId[0] == intentId[..4][0] == 'I';
    }
    assert SpaceRun(t) == 1;
    var u := t[1..];
    assert u[4] == intentId[4];
    DigitRunOfDigits(u[4..]);
    assert u[..4 + DigitRun(u[4..])] == intentId;
  }

  /** If `b0` is the largest end in range after which `\s+\(` matches, the greedy
      search stops there. */
  lemma BestEndStopsAt(line: string, start: int, e: int, b0: int)
    requires 0 <= start < b0 <= e <= |line|
    requires TailOk(line, b0)
    requires NoTailBetween(line, b0, e)
    ensures BestEnd(line, start, e) == Some(b0)
  {
    var k := e;
    while k > b0
      invariant b0 <= k <= e
      invariant NoTailBetween(line, b0, k)
      invariant BestEnd(line, start, e) == BestEnd(line, start, k)
      decreases k
    {
      NoTailNarrows(line, b0, k);
      BestEndSkips(line, start, k);
      k := k - 1;
    }
    BestEndTakes(line, start, b0);
  }

  /** Dropping the top end keeps the range free of `\s+\(`, and the top end had none. */
  lemma NoTailNarrows(line: string, lo: int, hi: int)
    requires 0 <= lo < hi <= |line| && NoTailBetween(line, lo, hi)
    ensures NoTailBetween(line, lo, hi - 1) && !TailOk(line, hi)
  {
  }

  /** An end followed by `\s+\(` is taken. */
  lemma BestEndTakes(line: string, start: int, e: int)
    requires 0 <= start < e <= |line| && TailOk(line, e)
    ensures BestEnd(line, start, e) == Some(e)
  {
  }

  /** No end in `lo + 1 .. hi` is followed by `\s+\(`. */
  predicate NoTailBetween(line: string, lo: int, hi: int)
    requires 0 <= lo && hi <= |line|
  {
    forall b :: lo < b <= hi ==> !TailOk(line, b)
  }

  /** An end not followed by `\s+\(` is skipped. */
  lemma BestEndSkips(line: string, start: int, e: int)
    requires 0 <= start < e <= |line| && !TailOk(line, e)
    ensures BestEnd(line, start, e) == BestEnd(line, start, e - 1)
  {
  }

  /** The bullet line's leading white space is the single space after "-". */
  lemma BulletLead(path: string, timestamp: string)
    requires path != [] && !IsSpace(path[0])
    ensures SpaceRun(EntryLine(path, timestamp)[1..]) == 1
  {
    var line := EntryLine(path, timestamp);
    assert line == "- " + path + " (" + timestamp + ")";
    assert line[1..][0] == ' ' && line[1..][1..] == line[2..];
    assert line[2..][0] == path[0];
  }

  /** After the path, `\s+\(` matches; at no later end does it, as the timestamp holds no "(". */
  lemma BulletTail(path: string, timestamp: string)
    requires '(' !in timestamp
    ensures TailOk(EntryLine(path, timestamp), 2 + |path|)
    ensures forall b :: 2 + |path| < b <= |EntryLine(path, timestamp)| ==> !TailOk(EntryLine(path, timestamp), b)
  {
    var line := EntryLine(path, timestamp);
    var b0 := 2 + |path|;
    assert line == "- " + path + " (" + timestamp + ")";
    assert line[b0..] == " (" + timestamp + ")";
    assert line[b0..][1..] == "(" + timestamp + ")";
    assert SpaceRun(line[b0..][1..]) == 0;
    forall b | b0 < b <= |line| ensures !TailOk(line, b) {
      var m := SpaceRun(line[b..]);
      if m >= 1 && b + m < |line| {
        var q := b + m;
        if q < |line| - 1 {
          assert line[q] == timestamp[q - b0 - 2];
          assert timestamp[q - b0 - 2] in timestamp;
        } else {
          assert line[q] == ')';
        }
      }
    }
  }

  /** The `.` run after "- " covers at least the path. */
  lemma BulletDots(path: string, timestamp: string)
    requires forall i :: 0 <= i < |path| ==> !IsLineTerminator(path[i])
    ensures DotRun(EntryLine(path, timestamp)[2..]) >= |path|
  {
    var rest := EntryLine(path, timestamp)[2..];
    assert rest == path + (" (" + timestamp + ")");
    forall i | 0 <= i < |path| ensures !IsLineTerminator(rest[i]) {
      assert rest[i] == path[i];
    }
    DotRunAtLeast(rest, |path|);
  }

  /** With `a` leading spaces tried, a greedy end `b` gives the capture from after
      those spaces up to `b`. */
  lemma TryLeadFound(line: string, a: nat, b: int)
    requires 1 <= a < |line|
    requires BestEnd(line, 1 + a, 1 + a + DotRun(line[1 + a..])) == Some(b)
    ensures TryLead(line, a) == Some(line[1 + a..b])
  {
  }

  /** On a line "-", one space, then text: if `\s+\(` matches after index `b0`, at no
      later end, and the `.` run reaches `b0`, the capture is the text up to `b0`. */
  lemma GreedyBullet(line: string, b0: int)
    requires |line| >= 2 && line[0] == '-' && SpaceRun(line[1..]) == 1
    requires 2 < b0 <= 2 + DotRun(line[2..]) && TailOk(line, b0)
    requires forall b :: b0 < b <= |line| ==> !TailOk(line, b)
    ensures BulletCapture(line) == Some(line[2..b0])
  {
    BestEndStopsAt(line, 2, 2 + DotRun(line[2..]), b0);
    TryLeadFound(line, 1, b0);
  }

  /** The bullet line the updater writes is read back as its path, provided the path
      is one line that does not start with white space and the timestamp holds no "(". */
  lemma BulletOf(path: string, timestamp: string)
    requires path != [] && !IsSpace(path[0])
    requires forall i :: 0 <= i < |path| ==> !IsLineTerminator(path[i])
    requires '(' !in timestamp
    ensures BulletCapture(EntryLine(path, timestamp)) == Some(path)
  {
    var line := EntryLine(path, timestamp);
    BulletLead(path, timestamp);
    BulletTail(path, timestamp);
    BulletDots(path, timestamp);
    EntryLinePath(path, timestamp);
    GreedyBullet(line, 2 + |path|);
  }

  /** The path sits right after "- " in its entry line. */
  lemma EntryLinePath(path: string, timestamp: string)
    ensures |EntryLine(path, timestamp)| >= 2 + |path|
    ensures EntryLine(path, timestamp)[0] == '-' && EntryLine(path, timestamp)[2..2 + |path|] == path
  {
    var line := EntryLine(path, timestamp);
    assert line == "- " + path + " (" + timestamp + ")";
    assert line[2..2 + |path|] == path;
  }

  /** An entry line is not a heading: it starts with "-". */
  lemma EntryIsNoHeading(path: string, timestamp: string)
    ensures HeadingCapture(EntryLine(path, timestamp)) == None
  {
    var line := EntryLine(path, timestamp);
    assert line[0] == '-';
    assert line[..2][0] == '-';
  }

  /** Blank lines and the default title line are neither headings nor bullets. */
  lemma PlainLines()
    ensures HeadingCapture("") == None && BulletCapture("") == None
    ensures HeadingCapture("# Intent Map") == None && BulletCapture("# Intent Map") == None
  {
    assert "# Intent Map"[..2] == "# ";
  }

  /** A heading whose id is not "INT-" and digits, such as "## INT-TEST", is not a heading. */
  lemma NonNumericHeadingIgnored()
    ensures HeadingCapture("## INT-TEST") == None
  {
    var line := "## INT-TEST";
    var t := line[2..];
    assert t == " INT-TEST";
    assert t[1..][0] == 'I';
    assert SpaceRun(t) == 1;
    assert t[1..][4] == 'T';
  }

  /** Bullets before the first heading are ignored: lines without headings add nothing. */
  lemma {:induction false} NoHeadingNoEntries(lines: seq<string>, m0: map<string, string>)
    requires forall k :: 0 <= k < |lines| ==> HeadingCapture(lines[k]).None?
    ensures ParseLines(lines, ParseState(None, m0)) == ParseState(None, m0)
    decreases |lines|
  {
    if lines != [] {
      NoHeadingNoEntries(lines[1..], m0);
    }
  }

  /** The loader over `x` followed by `rest`. */
  lemma ParseCons(x: string, rest: seq<string>, st: ParseState)
    requires st.current.Some? ==> IsIntentId(st.current.value)
    ensures ParseLines([x] + rest, st) == ParseLines(rest, ParseStep(st, x))
  {
    assert ([x] + rest)[1..] == rest;
  }

  /** The loader over `a + b` is the loader over `b` from the state `a` leaves. */
  lemma {:induction false} ParseLinesAppend(a: seq<string>, b: seq<string>, st: ParseState)
    requires st.current.Some? ==> IsIntentId(st.current.value)
    ensures ParseLines(a + b, st) == ParseLines(b, ParseLines(a, st))
    decreases |a|
  {
    if a == [] {
      assert a + b == b;
    } else {
      assert (a + b)[0] == a[0] && (a + b)[1..] == a[1..] + b;
      ParseLinesAppend(a[1..], b, ParseStep(st, a[0]));
    }
  }

  /** One line inside a section: the current intent stays, and a bullet maps its
      path to that intent. */
  lemma StepInSection(intentId: string, m: map<string, string>, line: string)
    requires HeadingCapture(line).None?
    ensures var next := ParseStep(ParseState(Some(intentId), m), line);
            && next.current == Some(intentId)
            && next.fileToIntent == (if BulletCapture(line).Some? then m[BulletCapture(line).value := intentId] else m)
  {
  }

  /** Inside a section (no heading line), the current intent stays, and a path
      already mapped to it stays mapped to it. */
  lemma {:induction false} SectionKeepsMapping(b: seq<string>, intentId: string, m: map<string, string>, path: string)
    requires IsIntentId(intentId)
    requires forall k :: 0 <= k < |b| ==> HeadingCapture(b[k]).None?
    requires path in m && m[path] == intentId
    ensures ParseLines(b, ParseState(Some(intentId), m)).current == Some(intentId)
    ensures var r := ParseLines(b, ParseState(Some(intentId), m)).fileToIntent;
            path in r && r[path] == intentId
    decreases |b|
  {
    if b != [] {
      var next := ParseStep(ParseState(Some(intentId), m), b[0]);
      StepInSection(intentId, m, b[0]);
      SectionKeepsMapping(b[1..], intentId, next.fileToIntent, path);
    }
  }

  /** Every bullet of a section maps to the section's intent, whatever follows it
      in the section. */
  lemma {:induction false} SectionBulletMaps(b: seq<string>, intentId: string, m: map<string, string>, k: int)
    requires IsIntentId(intentId)
    requires forall i :: 0 <= i < |b| ==> HeadingCapture(b[i]).None?
    requires 0 <= k < |b| && BulletCapture(b[k]).Some?
    ensures var r := ParseLines(b, ParseState(Some(intentId), m)).fileToIntent;
            BulletCapture(b[k]).value in r && r[BulletCapture(b[k]).value] == intentId
    decreases |b|
  {
    var next := ParseStep(ParseState(Some(intentId), m), b[0]);
    StepInSection(intentId, m, b[0]);
    assert ParseLines(b, ParseState(Some(intentId), m)) == ParseLines(b[1..], next);
    assert forall i :: 0 <= i < |b[1..]| ==> HeadingCapture(b[1..][i]).None? by {
      forall i | 0 <= i < |b[1..]| ensures HeadingCapture(b[1..][i]).None? {
        assert b[1..][i] == b[i + 1];
      }
    }
    if k == 0 {
      SectionKeepsMapping(b[1..], intentId, next.fileToIntent, BulletCapture(b[0]).value);
    } else {
      assert b[1..][k - 1] == b[k];
      SectionBulletMaps(b[1..], intentId, next.fileToIntent, k - 1);
    }
  }

  /** A heading line followed by its section: every bullet of the section maps its
      path to the heading's intent. */
  lemma SectionUnderHeading(h: string, b: seq<string>, st: ParseState, k: int)
    requires st.current.Some? ==> IsIntentId(st.current.value)
    requires HeadingCapture(h).Some?
    requires forall i :: 0 <= i < |b| ==> HeadingCapture(b[i]).None?
    requires 0 <= k < |b| && BulletCapture(b[k]).Some?
    ensures var r := ParseLines([h] + b, st).fileToIntent;
            BulletCapture(b[k]).value in r && r[BulletCapture(b[k]).value] == HeadingCapture(h).value
  {
    ParseCons(h, b, st);
    SectionBulletMaps(b, HeadingCapture(h).value, st.fileToIntent, k);
  }

  /** Lines with no bullet for `path` leave its mapping as it was. */
  lemma {:induction false} OtherLinesKeepMapping(lines: seq<string>, st: ParseState, path: string)
    requires st.current.Some? ==> IsIntentId(st.current.value)
    requires path in st.fileToIntent
    requires forall i :: 0 <= i < |lines| ==> BulletCapture(lines[i]) != Some(path)
    ensures var r := ParseLines(lines, st).fileToIntent;
            path in r && r[path] == st.fileToIntent[path]
    decreases |lines|
  {
    if lines != [] {
      var next := ParseStep(st, lines[0]);
      assert BulletCapture(lines[0]) != Some(path);
      assert path in next.fileToIntent && next.fileToIntent[path] == st.fileToIntent[path];
      assert forall i :: 0 <= i < |lines[1..]| ==> BulletCapture(lines[1..][i]) != Some(path) by {
        forall i | 0 <= i < |lines[1..]| ensures BulletCapture(lines[1..][i]) != Some(path) {
          assert lines[1..][i] == lines[i + 1];
        }
      }
      OtherLinesKeepMapping(lines[1..], next, path);
    }
  }

  /** A heading, its section and lines that do not name the bullet's path again:
      the bullet keeps the heading's intent. */
  lemma SectionThenOtherLines(h: string, b: seq<string>, after: seq<string>, st: ParseState, k: int)
    requires st.current.Some? ==> IsIntentId(st.current.value)
    requires HeadingCapture(h).Some?
    requires forall i :: 0 <= i < |b| ==> HeadingCapture(b[i]).None?
    requires 0 <= k < |b| && BulletCapture(b[k]).Some?
    requires forall i :: 0 <= i < |after| ==> BulletCapture(after[i]) != BulletCapture(b[k])
    ensures var r := ParseLines([h] + b + after, st).fileToIntent;
            BulletCapture(b[k]).value in r && r[BulletCapture(b[k]).value] == HeadingCapture(h).value
  {
    ParseLinesAppend([h] + b, after, st);
    SectionUnderHeading(h, b, st, k);
    OtherLinesKeepMapping(after, ParseLines([h] + b, st), BulletCapture(b[k]).value);
  }

  /** The loader's rule: a bullet maps its path to the intent of the latest heading
      above it, from whatever state the lines before the heading left, unless a
      later bullet names the same path. */
  lemma BulletMapsToLatestHeading(before: seq<string>, h: string, b: seq<string>, after: seq<string>,
                                  m0: map<string, string>, k: int)
    requires HeadingCapture(h).Some?
    requires forall i :: 0 <= i < |b| ==> HeadingCapture(b[i]).None?
    requires 0 <= k < |b| && BulletCapture(b[k]).Some?
    requires forall i :: 0 <= i < |after| ==> BulletCapture(after[i]) != BulletCapture(b[k])
    ensures var r := ParseLines(before + ([h] + b + after), ParseState(None, m0)).fileToIntent;
            BulletCapture(b[k]).value in r && r[BulletCapture(b[k]).value] == HeadingCapture(h).value
  {
    var init := ParseState(None, m0);
    ParseLinesAppend(before, [h] + b + after, init);
    SectionThenOtherLines(h, b, after, ParseLines(before, init), k);
  }

  /** No two "#" in a row. */
  predicate NoDoubleHash(s: string) {
    forall i :: 0 <= i < |s| - 1 ==> !(s[i] == '#' && s[i + 1] == '#')
  }

  /** No "-" followed by a space. */
  predicate NoDashSpace(s: string) {
    forall i :: 0 <= i < |s| - 1 ==> !(s[i] == '-' && s[i + 1] == ' ')
  }

  lemma NoDoubleHashLacksHeading(s: string, intentId: string)
    requires NoDoubleHash(s)
    ensures !Contains(s, HeadingMarker(intentId))
  {
    var m := HeadingMarker(intentId);
    assert m[0] == '#' && m[1] == '#';
    forall i | 0 <= i <= |s| - |m| ensures !OccursAt(s, m, i) {
      assert s[i..i + |m|][0] == s[i] && s[i..i + |m|][1] == s[i + 1];
    }
  }

  lemma NoDashSpaceLacksEntry(s: string, path: string)
    requires NoDashSpace(s)
    ensures !Contains(s, FileEntry(path))
  {
    var m := FileEntry(path);
    assert m[0] == '-' && m[1] == ' ';
    forall i | 0 <= i <= |s| - |m| ensures !OccursAt(s, m, i) {
      assert s[i..i + |m|][0] == s[i] && s[i..i + |m|][1] == s[i + 1];
    }
  }

  /** The document a missing map file becomes after the section for `intentId` is added. */
  function FreshSection(intentId: string): string {
    DefaultMap + "\n## " + intentId + "\n\n"
  }

  /** Its lines: the title, three blank lines around the heading, and two after. */
  function FreshSectionLines(intentId: string): seq<string> {
    ["# Intent Map", "", "", HeadingMarker(intentId), "", ""]
  }

  /** A recognised intent id is a single line. */
  lemma IntentIdIsOneLine(intentId: string)
    requires IsIntentId(intentId)
    ensures forall i :: 0 <= i < |intentId| ==> !IsLineTerminator(intentId[i]) && intentId[i] != '('
    ensures forall i :: 0 <= i < |intentId| - 1 ==> !(intentId[i] == '-' && intentId[i + 1] == ' ')
  {
    forall i | 0 <= i < |intentId|
      ensures !IsLineTerminator(intentId[i]) && intentId[i] != '('
      ensures i < |intentId| - 1 ==> !(intentId[i] == '-' && intentId[i + 1] == ' ')
    {
      if i < 4 {
        assert intentId[i] == intentId[..4][i];
      }
    }
  }

  /** A missing map gets the default title and then the new section. */
  lemma FreshSectionAdded(intentId: string)
    ensures WithSection(None, intentId) == FreshSection(intentId)
  {
    assert NoDoubleHash(DefaultMap);
    NoDoubleHashLacksHeading(DefaultMap, intentId);
  }

  lemma FreshSectionJoin(intentId: string)
    ensures Join(FreshSectionLines(intentId), "\n") == FreshSection(intentId)
  {
    var h := HeadingMarker(intentId);
    var tail := [h, "", ""];
    assert Join(tail, "\n") == h + "\n\n" by {
      assert tail[1..] == ["", ""] && ["", ""][1..] == [""];
    }
    var lines := FreshSectionLines(intentId);
    assert lines == ["# Intent Map", "", ""] + tail;
    assert lines[1..][1..][1..] == tail;
    assert Join(lines[1..][1..], "\n") == "\n" + Join(tail, "\n");
    assert Join(lines[1..], "\n") == "\n" + Join(lines[1..][1..], "\n");
    assert Join(lines, "\n") == "# Intent Map\n" + Join(lines[1..], "\n");
  }

  lemma FreshSectionSplit(intentId: string)
    requires IsIntentId(intentId)
    ensures Split(FreshSection(intentId), '\n') == FreshSectionLines(intentId)
  {
    IntentIdIsOneLine(intentId);
    FreshSectionJoin(intentId);
    var lines := FreshSectionLines(intentId);
    assert '\n' !in HeadingMarker(intentId);
    SplitJoin(lines, '\n');
  }

  /** The fresh section holds no "- ", so no file entry is in it yet. */
  lemma FreshSectionHasNoEntry(intentId: string, path: string)
    requires IsIntentId(intentId)
    ensures !Contains(FreshSection(intentId), FileEntry(path))
  {
    IntentIdIsOneLine(intentId);
    var c := FreshSection(intentId);
    var a := DefaultMap + "\n## ";
    assert c == a + intentId + "\n\n";
    forall i | 0 <= i < |c| - 1 ensures !(c[i] == '-' && c[i + 1] == ' ') {
      if i < |a| {
        assert c[i] == a[i];
        assert a[i] in a;
      } else if i < |a| + |intentId| - 1 {
        assert c[i] == intentId[i - |a|] && c[i + 1] == intentId[i + 1 - |a|];
      } else if i == |a| + |intentId| - 1 {
        assert c[i] == intentId[|intentId| - 1];
        assert IsDigit(intentId[|intentId| - 1]);
      } else {
        assert c[i] == '\n';
      }
    }
    NoDashSpaceLacksEntry(c, path);
  }

  /** The loader from line `k` on: one step, then the rest. */
  lemma ParseAt(lines: seq<string>, k: int, st: ParseState)
    requires 0 <= k < |lines|
    requires st.current.Some? ==> IsIntentId(st.current.value)
    ensures ParseLines(lines[k..], st) == ParseLines(lines[k + 1..], ParseStep(st, lines[k]))
  {
    assert lines[k..][0] == lines[k] && lines[k..][1..] == lines[k + 1..];
  }

  /** Starting from a missing map file, the updater writes the fresh section with the
      entry right after it. */
  lemma FreshDocument(intentId: string, path: string, timestamp: string)
    requires IsIntentId(intentId)
    ensures UpdatedMapText(None, intentId, path, timestamp)
            == Join(FreshSectionLines(intentId) + [EntryLine(path, timestamp)], "\n")
  {
    var h := HeadingMarker(intentId);
    FreshSectionAdded(intentId);
    FreshSectionSplit(intentId);
    FreshSectionHasNoEntry(intentId, path);
    var lines := FreshSectionLines(intentId);
    assert !Contains("# Intent Map", h) by {
      assert NoDoubleHash("# Intent Map");
      NoDoubleHashLacksHeading("# Intent Map", intentId);
    }
    assert Contains(h, h) by {
      assert OccursAt(h, h, 0);
    }
    assert FindLine(lines, h) == 3 by {
      assert FindLineFrom(lines, h, 0) == FindLineFrom(lines, h, 1) == FindLineFrom(lines, h, 2)
             == FindLineFrom(lines, h, 3) == 3;
    }
    assert SectionEnd(lines, 4) == 6;
    var entry := EntryLine(path, timestamp);
    assert lines[..6] + [entry] + lines[6..] == lines + [entry];
  }

  /** An entry line for a one-line path and timestamp holds no line break. */
  lemma EntryLineHasNoBreak(path: string, timestamp: string)
    requires forall i :: 0 <= i < |path| ==> !IsLineTerminator(path[i])
    requires '\n' !in timestamp
    ensures '\n' !in EntryLine(path, timestamp)
  {
    assert EntryLine(path, timestamp) == "- " + path + " (" + timestamp + ")";
    assert '\n' !in path by {
      forall i | 0 <= i < |path| ensures path[i] != '\n' {
        assert !IsLineTerminator(path[i]);
      }
    }
  }

  /** Those are exactly the lines the loader reads back. */
  lemma FreshDocumentLines(intentId: string, path: string, timestamp: string)
    requires IsIntentId(intentId)
    requires forall i :: 0 <= i < |path| ==> !IsLineTerminator(path[i])
    requires '\n' !in timestamp
    ensures Split(UpdatedMapText(None, intentId, path, timestamp), '\n')
            == FreshSectionLines(intentId) + [EntryLine(path, timestamp)]
  {
    FreshDocument(intentId, path, timestamp);
    IntentIdIsOneLine(intentId);
    var lines := FreshSectionLines(intentId);
    var entry := EntryLine(path, timestamp);
    var all := lines + [entry];
    assert '\n' !in HeadingMarker(intentId);
    EntryLineHasNoBreak(path, timestamp);
    forall k | 0 <= k < |all| ensures '\n' !in all[k] {
      if k < 6 {
        assert all[k] == lines[k];
      }
    }
    SplitJoin(all, '\n');
  }

  /** The loader, on those lines, maps the path to the intent of the heading above it. */
  lemma ParseFreshLines(intentId: string, path: string, timestamp: string, m0: map<string, string>)
    requires IsIntentId(intentId)
    requires path != [] && !IsSpace(path[0])
    requires forall i :: 0 <= i < |path| ==> !IsLineTerminator(path[i])
    requires '(' !in timestamp
    ensures ParseLines(FreshSectionLines(intentId) + [EntryLine(path, timestamp)], ParseState(None, m0))
            == ParseState(Some(intentId), m0[path := intentId])
  {
    var all := FreshSectionLines(intentId) + [EntryLine(path, timestamp)];
    HeadingOf(intentId);
    BulletOf(path, timestamp);
    EntryIsNoHeading(path, timestamp);
    PlainLines();
    var st0 := ParseState(None, m0);
    var st1 := ParseState(Some(intentId), m0);
    ParseAt(all, 0, st0);
    ParseAt(all, 1, st0);
    ParseAt(all, 2, st0);
    ParseAt(all, 3, st0);
    ParseAt(all, 4, st1);
    ParseAt(all, 5, st1);
    ParseAt(all, 6, st1);
    assert all[0..] == all;
    assert all[7..] == [];
  }

  /** Round trip: starting from a missing map file, adding `path` under `intentId` and
      loading the written file maps `path` to `intentId` and leaves every other
      entry of the loaded mapping as it was. */
  lemma RoundTripFromMissing(intentId: string, path: string, timestamp: string, m0: map<string, string>)
    requires IsIntentId(intentId)
    requires path != [] && !IsSpace(path[0])
    requires forall i :: 0 <= i < |path| ==> !IsLineTerminator(path[i])
    requires '(' !in timestamp && '\n' !in timestamp
    ensures ParseMap(Some(UpdatedMapText(None, intentId, path, timestamp)), m0) == m0[path := intentId]
  {
    FreshDocumentLines(intentId, path, timestamp);
    ParseFreshLines(intentId, path, timestamp, m0);
  }
}
