/** The Markdown around the stored state: `render_markdown_memory`, and the marker search of `MarkdownMemoryStore.load`. */
module MemoryMarkdown {
  import opened Common
  import opened Pcm
  import opened Utf8
  import opened Memories
  import opened MemoryStores

  function Literal(s: string): (t: Text)
    ensures |t| == |s|
  {
    seq(|s|, i requires 0 <= i < |s| => s[i] as int)
  }

  function Opening(): Text {
    Literal("<!-- bitnp-memory-state\n")
  }

  function Closing(): Text {
    Literal("\n-->")
  }

  predicate At(text: Text, i: int, mark: Text) {
    0 <= i <= |text| - |mark| && text[i..i + |mark|] == mark
  }

  ghost predicate Occurs(text: Text, mark: Text) {
    exists i :: At(text, i, mark)
  }

  /** A mark that starts with `<` and ends with its only line break. */
  predicate IsMark(mark: Text) {
    && |mark| >= 2 && mark[0] == LESS_THAN && mark[|mark| - 1] == NEWLINE
    && forall k :: 0 <= k < |mark| - 1 ==> mark[k] != NEWLINE
  }

  /** Behind the end of a line a mark starts anew. */
  lemma AtSplits(a: Text, b: Text, i: int, mark: Text)
    requires IsMark(mark) && a != [] && a[|a| - 1] == NEWLINE
    ensures i < |a| ==> (At(a + b, i, mark) <==> At(a, i, mark))
    ensures i >= |a| ==> (At(a + b, i, mark) <==> At(b, i - |a|, mark))
  {
    if 0 <= i < |a| && i + |mark| <= |a + b| {
      if i + |mark| > |a| {
        assert (a + b)[i..i + |mark|][|a| - 1 - i] == NEWLINE;
      } else {
        assert (a + b)[i..i + |mark|] == a[i..i + |mark|];
      }
    }
    if i >= |a| && i + |mark| <= |a + b| {
      assert (a + b)[i..i + |mark|] == b[i - |a|..i - |a| + |mark|];
    }
  }

  lemma OccursSplits(a: Text, b: Text, mark: Text)
    requires IsMark(mark) && a != [] && a[|a| - 1] == NEWLINE
    ensures Occurs(a + b, mark) <==> Occurs(a, mark) || Occurs(b, mark)
  {
    hide At, IsMark;
    forall i: int ensures i < |a| ==> (At(a + b, i, mark) <==> At(a, i, mark))
    {
      AtSplits(a, b, i, mark);
    }
    forall i: int ensures i >= |a| ==> (At(a + b, i, mark) <==> At(b, i - |a|, mark))
    {
      AtSplits(a, b, i, mark);
    }
    AtInside(a, mark);
    AtInside(b, mark);
    if Occurs(b, mark) {
      var i :| At(b, i, mark);
      assert At(a + b, i + |a|, mark);
    }
  }

  lemma AtInside(text: Text, mark: Text)
    requires IsMark(mark)
    ensures forall i :: At(text, i, mark) ==> 0 <= i < |text|
  {
  }

  lemma LabelIsNoMark(title: Text, rest: Text, mark: Text)
    requires IsMark(mark) && LESS_THAN !in title
    ensures Occurs(title + rest, mark) <==> Occurs(rest, mark)
  {
    forall i: int | 0 <= i <= |rest| - |mark| ensures At(title + rest, i + |title|, mark) <==> At(rest, i, mark) {
      assert (title + rest)[i + |title|..i + |title| + |mark|] == rest[i..i + |mark|];
    }
    forall i: int | At(title + rest, i, mark) ensures i >= |title| {
      assert (title + rest)[i..i + |mark|][0] == LESS_THAN;
    }
    if Occurs(title + rest, mark) {
      var i :| At(title + rest, i, mark);
      assert At(title + rest, (i - |title|) + |title|, mark);
      assert At(rest, i - |title|, mark);
    }
    if Occurs(rest, mark) {
      var i :| At(rest, i, mark);
      assert At(title + rest, i + |title|, mark);
    }
  }

  lemma NoMarkWithoutBracket(field: Text, mark: Text)
    requires IsMark(mark) && LESS_THAN !in field
    ensures !Occurs(field + [NEWLINE], mark)
  {
    var line := field + [NEWLINE];
    forall i | 0 <= i <= |line| - |mark| ensures !At(line, i, mark) {
      assert line[i..i + |mark|][0] == line[i] != LESS_THAN;
    }
  }

  datatype Line = Line(title: Text, field: Text)

  function Flatten(lines: seq<Line>): Text {
    if lines == [] then [] else lines[0].title + (lines[0].field + [NEWLINE]) + Flatten(lines[1..])
  }

  /** No title has a `<` in it, and no field, with the line break behind it, holds the mark. */
  ghost predicate Labelled(lines: seq<Line>) {
    forall i :: 0 <= i < |lines| ==> LESS_THAN !in lines[i].title
  }

  ghost predicate Unmarked(lines: seq<Line>, mark: Text) {
    forall i :: 0 <= i < |lines| ==> !Occurs(lines[i].field + [NEWLINE], mark)
  }

  lemma {:induction false} MarkOnlyInFields(lines: seq<Line>, mark: Text)
    requires IsMark(mark) && Labelled(lines)
    ensures Occurs(Flatten(lines), mark) <==> !Unmarked(lines, mark)
  {
    hide Occurs, IsMark;
    if lines == [] {
      assert !Occurs([], mark) by { NothingOccursInNothing(mark); }
    } else {
      MarkOnlyInFields(lines[1..], mark);
      var title, field := lines[0].title, lines[0].field + [NEWLINE];
      assert (title + field)[|title + field| - 1] == NEWLINE;
      OccursSplits(title + field, Flatten(lines[1..]), mark);
      LabelIsNoMark(title, field, mark);
      forall i | 0 < i < |lines| ensures lines[i] == lines[1..][i - 1] { }
      forall i | 0 <= i < |lines[1..]| ensures lines[1..][i] == lines[i + 1] { }
    }
  }

  lemma NothingOccursInNothing(mark: Text)
    requires IsMark(mark)
    ensures !Occurs([], mark)
  {
  }

  function Digits(n: nat): (text: Text)
    ensures LESS_THAN !in text
  {
    if n < 10 then [0x30 + n] else Digits(n / 10) + [0x30 + n % 10]
  }

  function Decimal(n: int): (text: Text)
    ensures LESS_THAN !in text
  {
    if n < 0 then [0x2D] + Digits(-n) else Digits(n)
  }

  function CategoryName(category: Category): Text {
    match category
    case OrdinaryPreference => Literal("ordinary_preference")
    case Restricted => Literal("restricted")
    case Biometric => Literal("biometric")
    case Identity => Literal("identity")
    case Authorization => Literal("authorization")
  }

  function EntryLines(e: Entry): (lines: seq<Line>)
    ensures |lines| == 7
  {
    [Line(Literal("## "), e.key),
     Line(Literal("- 值: "), e.value),
     Line(Literal("- 类别: "), CategoryName(e.category)),
     Line(Literal("- 来源轮次: "), e.provenance.turn),
     Line(Literal("- 置信度: "), Decimal(e.confidence)),
     Line(Literal("- 更新时间(毫秒): "), Decimal(e.updatedAt)),
     Line(Literal("- 证据: "), e.provenance.evidence)]
  }

  function AllEntryLines(entries: seq<Entry>): seq<Line> {
    if entries == [] then [] else EntryLines(entries[0]) + AllEntryLines(entries[1..])
  }

  const BLANK := Line([], [])

  /** The readable part; the joins of the source leave one empty line behind the entries, or two where there are none. */
  function ReadableLines(m: Memory): seq<Line> {
    [Line(Literal("# 会话记忆"), []), BLANK, Line(Literal("会话: "), m.session), BLANK,
     Line(Literal("版本: "), Decimal(m.revision)), BLANK]
      + AllEntryLines(m.entries) + (if m.entries == [] then [BLANK, BLANK] else [BLANK])
  }

  /** `render_markdown_memory`, for the JSON text `state` of the document. */
  function Render(m: Memory, state: Text): Text {
    Flatten(ReadableLines(m)) + (Opening() + (state + (Closing() + [NEWLINE])))
  }

  /** An id that does not bring its own marker, not even one completed by the line break behind it. */
  ghost predicate SafeId(id: Text) {
    !Occurs(id + [NEWLINE], Opening())
  }

  ghost predicate SafeIds(m: Memory) {
    && SafeId(m.session)
    && forall i :: 0 <= i < |m.entries| ==>
         SafeId(m.entries[i].provenance.turn) && SafeId(m.entries[i].provenance.evidence)
  }

  lemma OpeningIsAMark()
    ensures IsMark(Opening()) && |Opening()| == 24
  {
    var s := "<!-- bitnp-memory-state\n";
    assert |s| == 24 && s[23] == '\n';
    assert forall k :: 0 <= k < 23 ==> s[k] != '\n';
  }

  lemma ClosingStarts()
    ensures |Closing()| == 4 && Closing()[0] == NEWLINE
  {
  }

  lemma UnmarkedSplits(a: seq<Line>, b: seq<Line>, mark: Text)
    ensures Unmarked(a + b, mark) <==> Unmarked(a, mark) && Unmarked(b, mark)
    ensures Labelled(a + b) <==> Labelled(a) && Labelled(b)
  {
    hide Occurs;
    forall i | 0 <= i < |a| ensures a[i] == (a + b)[i] { }
    forall i | 0 <= i < |b| ensures b[i] == (a + b)[|a| + i] { }
  }

  lemma LiteralIsPlain(s: string)
    requires '<' !in s
    ensures LESS_THAN !in Literal(s)
  {
  }

  lemma CategoryIsPlain(category: Category)
    ensures LESS_THAN !in CategoryName(category)
  {
    hide Literal;
    LiteralIsPlain("ordinary_preference");
    LiteralIsPlain("restricted");
    LiteralIsPlain("biometric");
    LiteralIsPlain("identity");
    LiteralIsPlain("authorization");
  }

  lemma TitlesArePlain()
    ensures LESS_THAN !in Literal("## ") && LESS_THAN !in Literal("- 值: ") && LESS_THAN !in Literal("- 类别: ")
    ensures LESS_THAN !in Literal("- 来源轮次: ") && LESS_THAN !in Literal("- 置信度: ")
    ensures LESS_THAN !in Literal("- 更新时间(毫秒): ") && LESS_THAN !in Literal("- 证据: ")
    ensures LESS_THAN !in Literal("# 会话记忆") && LESS_THAN !in Literal("会话: ") && LESS_THAN !in Literal("版本: ")
  {
    hide Literal;
    LiteralIsPlain("## ");
    LiteralIsPlain("- 值: ");
    LiteralIsPlain("- 类别: ");
    LiteralIsPlain("- 来源轮次: ");
    LiteralIsPlain("- 置信度: ");
    LiteralIsPlain("- 更新时间(毫秒): ");
    LiteralIsPlain("- 证据: ");
    LiteralIsPlain("# 会话记忆");
    LiteralIsPlain("会话: ");
    LiteralIsPlain("版本: ");
  }

  lemma AdmissibleIsPlain(rules: Rules, session: Text, e: Entry)
    requires Admissible(rules, session, e)
    ensures LESS_THAN !in e.key && LESS_THAN !in e.value
  {
  }

  lemma EntryLinesUnmarked(rules: Rules, session: Text, e: Entry)
    requires Admissible(rules, session, e)
    ensures Labelled(EntryLines(e))
    ensures Unmarked(EntryLines(e), Opening()) <==> SafeId(e.provenance.turn) && SafeId(e.provenance.evidence)
  {
    hide Occurs, Literal, Opening, CategoryName, Admissible, Decimal, IsMark;
    OpeningIsAMark();
    TitlesArePlain();
    CategoryIsPlain(e.category);
    AdmissibleIsPlain(rules, session, e);
    NoMarkWithoutBracket(e.key, Opening());
    NoMarkWithoutBracket(e.value, Opening());
    NoMarkWithoutBracket(CategoryName(e.category), Opening());
    NoMarkWithoutBracket(Decimal(e.confidence), Opening());
    NoMarkWithoutBracket(Decimal(e.updatedAt), Opening());
    var lines := EntryLines(e);
    assert lines[3].field == e.provenance.turn && lines[6].field == e.provenance.evidence;
  }

  ghost predicate SafeEntries(entries: seq<Entry>) {
    forall i :: 0 <= i < |entries| ==> SafeId(entries[i].provenance.turn) && SafeId(entries[i].provenance.evidence)
  }

  lemma {:induction false} AllEntryLinesUnmarked(rules: Rules, session: Text, entries: seq<Entry>)
    requires Sound(rules, session, entries)
    ensures Labelled(AllEntryLines(entries))
    ensures Unmarked(AllEntryLines(entries), Opening()) <==> SafeEntries(entries)
  {
    hide SafeId, Admissible, Lookup, Opening, EntryLines;
    if entries != [] {
      var head, rest := EntryLines(entries[0]), AllEntryLines(entries[1..]);
      EntryLinesUnmarked(rules, session, entries[0]);
      AllEntryLinesUnmarked(rules, session, entries[1..]);
      UnmarkedSplits(head, rest, Opening());
      forall i | 0 < i < |entries| ensures entries[i] == entries[1..][i - 1] { }
      forall i | 0 <= i < |entries[1..]| ensures entries[1..][i] == entries[i + 1] { }
    }
  }

  lemma ReadableUnmarked(rules: Rules, m: Memory)
    requires Sound(rules, m.session, m.entries)
    ensures Labelled(ReadableLines(m))
    ensures Unmarked(ReadableLines(m), Opening()) <==> SafeIds(m)
  {
    hide Occurs, Literal, Opening, Sound, AllEntryLines;
    OpeningIsAMark();
    TitlesArePlain();
    NoMarkWithoutBracket([], Opening());
    NoMarkWithoutBracket(Decimal(m.revision), Opening());
    AllEntryLinesUnmarked(rules, m.session, m.entries);
    var head := [Line(Literal("# 会话记忆"), []), BLANK, Line(Literal("会话: "), m.session), BLANK,
                 Line(Literal("版本: "), Decimal(m.revision)), BLANK];
    var tail := if m.entries == [] then [BLANK, BLANK] else [BLANK];
    assert head[2].field == m.session;
    UnmarkedSplits(head, AllEntryLines(m.entries), Opening());
    UnmarkedSplits(head + AllEntryLines(m.entries), tail, Opening());
    assert SafeEntries(m.entries) && SafeId(m.session) <==> SafeIds(m);
  }

  /** `str.find` */
  function Find(text: Text, mark: Text, from: nat): (found: Option<nat>)
    ensures found.Some? ==> from <= found.value && At(text, found.value, mark)
    ensures forall j :: from <= j && At(text, j, mark) ==> found.Some? && found.value <= j
    decreases |text| - from
  {
    if from + |mark| > |text| then None
    else if At(text, from, mark) then Some(from)
    else if from == |text| then None
    else Find(text, mark, from + 1)
  }

  /** The stored state between the first opening marker and the first closing one behind it. */
  function StateText(raw: Text): Option<Text> {
    var start := Find(raw, Opening(), 0);
    if start == None then None
    else
      var end := Find(raw, Closing(), start.value + |Opening()|);
      if end == None then None else Some(raw[start.value + |Opening()|..end.value])
  }

  lemma {:induction false} FlattenEndsLine(lines: seq<Line>)
    requires lines != []
    ensures Flatten(lines) != [] && Flatten(lines)[|Flatten(lines)| - 1] == NEWLINE
  {
    if |lines| > 1 {
      FlattenEndsLine(lines[1..]);
    }
  }

  lemma OpeningIsAt(before: Text, after: Text)
    ensures At(before + (Opening() + after), |before|, Opening())
  {
    var raw := before + (Opening() + after);
    assert raw[|before|..|before| + |Opening()|] == Opening();
  }

  /** The search stops at the marker of the state exactly when no id in front of it is unsafe. */
  lemma MarkerIsFoundExactlyWhenIdsAreSafe(rules: Rules, m: Memory, state: Text)
    requires Sound(rules, m.session, m.entries)
    ensures Find(Render(m, state), Opening(), 0) == Some(|Flatten(ReadableLines(m))|) <==> SafeIds(m)
  {
    hide Sound, ReadableLines, Flatten, Opening, Closing, SafeIds, At, IsMark;
    OpeningIsAMark();
    var before, after := Flatten(ReadableLines(m)), state + (Closing() + [NEWLINE]);
    ReadableUnmarked(rules, m);
    MarkOnlyInFields(ReadableLines(m), Opening());
    FlattenEndsLine(ReadableLines(m)) by { assert ReadableLines(m) != [] by { SomeLines(m); } }
    OpeningIsAt(before, after);
    forall i: int ensures i < |before| ==> (At(before + (Opening() + after), i, Opening()) <==> At(before, i, Opening())) {
      AtSplits(before, Opening() + after, i, Opening());
    }
    AtInside(before, Opening());
  }

  lemma SomeLines(m: Memory)
    ensures ReadableLines(m) != []
  {
  }

  /** A state without line breaks ends where the first closing marker stands. */
  lemma ClosingIsFound(before: Text, state: Text, after: Text)
    requires NEWLINE !in state
    ensures Find(before + (state + (Closing() + after)), Closing(), |before|) == Some(|before| + |state|)
  {
    ClosingStarts();
    hide Closing, At, Find;
    var tail, raw := Closing() + after, before + (state + (Closing() + after));
    Slices(before, state, tail);
    assert At(raw, |before| + |state|, Closing()) by { StartsAt(before + state, Closing(), after); }
    FirstIsFound(raw, Closing(), |before|, |before| + |state|);
  }

  lemma Slices(before: Text, state: Text, tail: Text)
    ensures before + (state + tail) == (before + state) + tail
    ensures forall j :: |before| <= j < |before| + |state| ==> (before + (state + tail))[j] in state
  {
    forall j | |before| <= j < |before| + |state| ensures (before + (state + tail))[j] in state {
      assert (before + (state + tail))[j] == state[j - |before|];
    }
  }

  lemma StartsAt(before: Text, mark: Text, after: Text)
    ensures At(before + (mark + after), |before|, mark)
  {
    assert (before + (mark + after))[|before|..|before| + |mark|] == mark;
  }

  lemma FirstIsFound(raw: Text, mark: Text, from: nat, end: nat)
    requires from <= end && mark != [] && At(raw, end, mark)
    requires forall j :: from <= j < end ==> raw[j] != mark[0]
    ensures Find(raw, mark, from) == Some(end)
  {
    hide Find;
    forall j | from <= j < end ensures !At(raw, j, mark) {
      if j + |mark| <= |raw| {
        assert raw[j..j + |mark|][0] == raw[j];
      }
    }
  }

  lemma StateIsRecovered(rules: Rules, m: Memory, state: Text)
    requires Sound(rules, m.session, m.entries) && SafeIds(m) && NEWLINE !in state
    ensures StateText(Render(m, state)) == Some(state)
  {
    hide Sound, ReadableLines, Flatten, Opening, Closing, SafeIds, At, Find;
    MarkerIsFoundExactlyWhenIdsAreSafe(rules, m, state);
    var readable := Flatten(ReadableLines(m));
    var before := readable + Opening();
    ClosingIsFound(before, state, [NEWLINE]);
    assert Render(m, state) == before + (state + (Closing() + [NEWLINE]));
    assert Render(m, state)[|before|..|before| + |state|] == state;
  }

  /** Strict decoding: malformed bytes are an error. */
  function DecodeStrict(bytes: seq<Byte>): Option<Text> {
    var text := DecodeIgnoring(bytes);
    if Utf8.Encode(text) == bytes then Some(text) else None
  }

  /** `save`: the bytes of the file, or the error that the document is too large. */
  function Save(m: Memory, state: Text): (saved: Option<seq<Byte>>)
    ensures saved == if |Utf8.Encode(Render(m, state))| > 262_144 then None else Some(Utf8.Encode(Render(m, state)))
  {
    var bytes := Utf8.Encode(Render(m, state));
    if |bytes| > MAX_DOCUMENT_BYTES then None else Some(bytes)
  }

  /** `load` of an existing file; `parse` is the closed JSON parser, `None` its error. */
  function Load(
    rules: Rules, bytes: seq<Byte>, session: Text, parse: Text -> Option<Element<Document>>): (loaded: Loaded)
    ensures loaded.Restored? ==> Inv(rules, loaded.memory) && loaded.memory.session == session
  {
    hide FromDocument, StateText, DecodeStrict, Inv;
    var raw := if |bytes| > MAX_DOCUMENT_BYTES then None else DecodeStrict(bytes);
    if raw == None then Failed
    else
      var state := StateText(raw.value);
      if state == None then Failed
      else
        var document := parse(state.value);
        if document == None || document.value.NoObject? then Failed
        else
          assert FromDocument(rules, document.value.fields, session).Restored? ==>
                   var t := FromDocument(rules, document.value.fields, session).memory;
                   Inv(rules, t) && t.session == session by {
            if FromDocument(rules, document.value.fields, session).Restored? {
              LoadedIsSound(rules, document.value.fields, session);
            }
          }
          FromDocument(rules, document.value.fields, session)
  }

  /**
   * The round trip through `memory.md`. The JSON of the state is one line and its parser reads it back; the
   * ids are safe and the document is not too large. Then the same memory comes back, entries in order,
   * conflicts and audit included, unless a policy below 90 had let an entry in.
   */
  lemma SavedMemoryLoads(rules: Rules, m: Memory, state: Text, parse: Text -> Option<Element<Document>>)
    requires Inv(rules, m) && SafeIds(m) && Save(m, state).Some?
    requires NEWLINE !in state && parse(state) == Some(Object(DocumentOf(m)))
    ensures Load(Default(rules), Save(m, state).value, m.session, parse)
         == if Confident(m.entries) then Restored(m.(profileRevision := 0, consentRevision := 0)) else Failed
  {
    hide Inv, SafeIds, FromDocument, StateText, Render, DocumentOf, Confident;
    assert Sound(rules, m.session, m.entries) by { InvIsSound(rules, m); }
    RoundTrip(Render(m, state));
    StateIsRecovered(rules, m, state);
    LoadingWhatWasSaved(rules, m);
  }

  lemma InvIsSound(rules: Rules, m: Memory)
    requires Inv(rules, m)
    ensures Sound(rules, m.session, m.entries)
  {
  }

  /**
   * So for every run of accepted and rejected proposals, deletions and clearings under the default policy:
   * whatever was saved loads, and what loads differs in the two revisions the file does not hold, at most.
   */
  lemma EveryRunSurvivesAReload(rules: Rules, session: Text, ops: seq<Operation>, state: Text, parse: Text -> Option<Element<Document>>)
    requires rules.minimum >= 90 && forall i :: 0 <= i < |ops| ==> ShortIds(ops[i])
    requires var m := Run(rules, Blank(session), ops);
             SafeIds(m) && Save(m, state).Some? && NEWLINE !in state && parse(state) == Some(Object(DocumentOf(m)))
    ensures var m := Run(rules, Blank(session), ops);
            Load(Default(rules), Save(m, state).value, session, parse)
            == Restored(m.(profileRevision := 0, consentRevision := 0))
  {
    hide Inv, SafeIds, Save, Load, DocumentOf, Confident, ShortIds;
    assert Inv(rules, Blank(session)) by { BlankIsSound(rules, session); }
    var m := Run(rules, Blank(session), ops);
    SavedMemoryLoads(rules, m, state, parse);
    InvIsSound(rules, m);
    SoundIsConfident(rules, m.session, m.entries);
  }

  lemma BlankIsSound(rules: Rules, session: Text)
    ensures Inv(rules, Blank(session))
  {
  }

  lemma {:induction false} SoundIsConfident(rules: Rules, session: Text, entries: seq<Entry>)
    requires Sound(rules, session, entries) && rules.minimum >= 90
    ensures Confident(entries)
  {
    hide Lookup, ValidText, ValidId;
    if entries != [] {
      SoundIsConfident(rules, session, entries[1..]);
      forall i | 0 < i < |entries| ensures entries[i] == entries[1..][i - 1] { }
    }
  }

  // ---------------------------------------------------------------------------------------------
  // What an unsafe id does.

  const DASH: Scalar := 0x2D

  predicate StartsWithDashes(text: Text) {
    |text| >= 2 && text[0] == DASH && text[1] == DASH
  }

  /** One line of output: no line break inside, and nothing that could pass for the rest of a closing marker. */
  predicate OneLine(line: Line) {
    && NEWLINE !in line.title && NEWLINE !in line.field
    && (line == BLANK || (|line.title| >= 2 && !StartsWithDashes(line.title)))
  }

  ghost predicate OneLineEach(lines: seq<Line>) {
    forall i :: 0 <= i < |lines| ==> OneLine(lines[i])
  }

  /** No line break in `text` is followed by two dashes. */
  ghost predicate NeverCloses(text: Text, before: int) {
    forall i :: 0 <= i < before && i < |text| ==> !At(text, i, Closing())
  }

  lemma NoClosingInALine(line: Line, rest: Text)
    requires OneLine(line) && !StartsWithDashes(rest)
    ensures var text := line.title + (line.field + [NEWLINE]);
            && NeverCloses(text + rest, |text|) && !StartsWithDashes(text + rest)
  {
    var text := line.title + (line.field + [NEWLINE]);
    var all := text + rest;
    ClosingDashes();
    forall i | 0 <= i < |text| ensures !At(all, i, Closing()) {
      if i == |text| - 1 {
        if |rest| >= 2 && i + |Closing()| <= |all| {
          assert all[i..i + |Closing()|][1] == rest[0] && all[i..i + |Closing()|][2] == rest[1];
        }
      } else {
        assert all[i] == text[i] && (text[i] in line.title || text[i] in line.field);
        if i + |Closing()| <= |all| {
          assert all[i..i + |Closing()|][0] == all[i];
        }
      }
    }
  }

  lemma ClosingDashes()
    ensures |Closing()| == 4 && Closing()[0] == NEWLINE && Closing()[1] == Closing()[2] == DASH
  {
  }

  lemma {:induction false} NoClosingInLines(lines: seq<Line>, rest: Text)
    requires OneLineEach(lines) && !StartsWithDashes(rest)
    ensures NeverCloses(Flatten(lines) + rest, |Flatten(lines)|) && !StartsWithDashes(Flatten(lines) + rest)
  {
    hide OneLine, StartsWithDashes, At, Closing;
    if lines == [] {
      assert Flatten(lines) + rest == rest;
    } else {
      assert OneLine(lines[0]);
      var text := lines[0].title + (lines[0].field + [NEWLINE]);
      forall i | 0 <= i < |lines[1..]| ensures OneLine(lines[1..][i]) { assert lines[1..][i] == lines[i + 1]; }
      NoClosingInLines(lines[1..], rest);
      var tail := Flatten(lines[1..]) + rest;
      NoClosingInALine(lines[0], tail);
      assert Flatten(lines) + rest == text + tail;
      forall i | 0 <= i < |Flatten(lines)| && i < |text + tail| ensures !At(text + tail, i, Closing()) {
        if i >= |text| {
          ClosingBehind(text, tail, i);
        }
      }
    }
  }

  lemma ClosingBehind(text: Text, tail: Text, i: int)
    requires i >= |text|
    ensures At(text + tail, i, Closing()) <==> At(tail, i - |text|, Closing())
  {
    hide Closing;
    if i + |Closing()| <= |text + tail| {
      assert (text + tail)[i..i + |Closing()|] == tail[i - |text|..i - |text| + |Closing()|];
    }
  }

  /** Ids of one line each. */
  predicate SingleLineIds(m: Memory) {
    && NEWLINE !in m.session
    && forall i :: 0 <= i < |m.entries| ==>
         NEWLINE !in m.entries[i].provenance.turn && NEWLINE !in m.entries[i].provenance.evidence
  }

  lemma LiteralIsOneLine(s: string)
    requires '\n' !in s && |s| >= 2 && (s[0] != '-' || s[1] != '-')
    ensures NEWLINE !in Literal(s) && |Literal(s)| >= 2 && !StartsWithDashes(Literal(s))
  {
  }

  lemma DigitsAreOneLine(n: nat)
    ensures NEWLINE !in Digits(n)
  {
  }

  lemma CategoryIsOneLine(category: Category)
    ensures NEWLINE !in CategoryName(category)
  {
    hide Literal;
    LiteralIsOneLine("ordinary_preference");
    LiteralIsOneLine("restricted");
    LiteralIsOneLine("biometric");
    LiteralIsOneLine("identity");
    LiteralIsOneLine("authorization");
  }

  lemma EntryIsOneLineEach(rules: Rules, session: Text, e: Entry)
    requires rules.control(NEWLINE) && Admissible(rules, session, e)
    requires NEWLINE !in e.provenance.turn && NEWLINE !in e.provenance.evidence
    ensures OneLineEach(EntryLines(e))
  {
    AdmissibleIsOneLine(rules, session, e);
    CategoryIsOneLine(e.category);
    DecimalIsOneLine(e.confidence);
    DecimalIsOneLine(e.updatedAt);
    hide Admissible, Literal, CategoryName, Decimal, OneLine;
    TitledIsOneLine("## ", e.key);
    TitledIsOneLine("- 值: ", e.value);
    TitledIsOneLine("- 类别: ", CategoryName(e.category));
    TitledIsOneLine("- 来源轮次: ", e.provenance.turn);
    TitledIsOneLine("- 置信度: ", Decimal(e.confidence));
    TitledIsOneLine("- 更新时间(毫秒): ", Decimal(e.updatedAt));
    TitledIsOneLine("- 证据: ", e.provenance.evidence);
  }

  lemma AdmissibleIsOneLine(rules: Rules, session: Text, e: Entry)
    requires rules.control(NEWLINE) && Admissible(rules, session, e)
    ensures NEWLINE !in e.key && NEWLINE !in e.value
  {
  }

  lemma DecimalIsOneLine(n: int)
    ensures NEWLINE !in Decimal(n)
  {
    DigitsAreOneLine(if n < 0 then -n else n);
    hide Digits;
  }

  lemma TitledIsOneLine(s: string, field: Text)
    requires '\n' !in s && |s| >= 2 && (s[0] != '-' || s[1] != '-') && NEWLINE !in field
    ensures OneLine(Line(Literal(s), field))
  {
    LiteralIsOneLine(s);
    hide Literal;
  }

  lemma {:induction false} EntriesAreOneLineEach(rules: Rules, session: Text, entries: seq<Entry>)
    requires rules.control(NEWLINE) && Sound(rules, session, entries)
    requires forall i :: 0 <= i < |entries| ==>
               NEWLINE !in entries[i].provenance.turn && NEWLINE !in entries[i].provenance.evidence
    ensures OneLineEach(AllEntryLines(entries))
  {
    hide Admissible, Lookup, OneLine, EntryLines;
    if entries != [] {
      EntryIsOneLineEach(rules, session, entries[0]);
      forall i | 0 <= i < |entries[1..]| ensures entries[1..][i] == entries[i + 1] { }
      EntriesAreOneLineEach(rules, session, entries[1..]);
    }
  }

  lemma ReadableIsOneLineEach(rules: Rules, m: Memory)
    requires rules.control(NEWLINE) && Sound(rules, m.session, m.entries) && SingleLineIds(m)
    ensures OneLineEach(ReadableLines(m))
  {
    EntriesAreOneLineEach(rules, m.session, m.entries);
    DecimalIsOneLine(m.revision);
    hide Sound, Literal, AllEntryLines, Decimal, OneLine, OneLineEach;
    TitledIsOneLine("# 会话记忆", []);
    TitledIsOneLine("会话: ", m.session);
    TitledIsOneLine("版本: ", Decimal(m.revision));
    BlankIsOneLine();
    var head := [Line(Literal("# 会话记忆"), []), BLANK, Line(Literal("会话: "), m.session), BLANK,
                 Line(Literal("版本: "), Decimal(m.revision)), BLANK];
    var tail := if m.entries == [] then [BLANK, BLANK] else [BLANK];
    FewLines(head);
    FewLines(tail);
    MoreLines(head, AllEntryLines(m.entries));
    MoreLines(head + AllEntryLines(m.entries), tail);
  }

  lemma FewLines(lines: seq<Line>)
    requires forall line <- lines :: OneLine(line)
    ensures OneLineEach(lines)
  {
    hide OneLine;
  }

  lemma MoreLines(a: seq<Line>, b: seq<Line>)
    requires OneLineEach(a) && OneLineEach(b)
    ensures OneLineEach(a + b)
  {
    hide OneLine;
  }

  lemma BlankIsOneLine()
    ensures OneLine(BLANK)
  {
  }

  /** The readable part ends with an empty line. */
  lemma ReadableEndsBlank(m: Memory)
    ensures var text := Flatten(ReadableLines(m));
            |text| >= 2 && text[|text| - 1] == NEWLINE && text[|text| - 2] == NEWLINE
  {
    var lines := ReadableLines(m);
    var n := |lines| - 1;
    assert lines[n] == BLANK && lines == lines[..n] + [BLANK];
    FlattenAppends(lines[..n], [BLANK]);
    FlattenEndsLine(lines[..n]);
    BlankIsNewline();
    hide Flatten;
  }

  lemma BlankIsNewline()
    ensures Flatten([BLANK]) == [NEWLINE]
  {
    assert [BLANK][1..] == [];
  }

  lemma {:induction false} FlattenAppends(a: seq<Line>, b: seq<Line>)
    ensures Flatten(a + b) == Flatten(a) + Flatten(b)
  {
    if a == [] {
      assert a + b == b;
    } else {
      hide Flatten;
      FlattenAppends(a[1..], b);
      FlattenCons(a[0], a[1..]);
      FlattenCons(a[0], a[1..] + b);
      assert [a[0]] + a[1..] == a && [a[0]] + (a[1..] + b) == a + b;
      JoinAssociates(a[0].title + (a[0].field + [NEWLINE]), Flatten(a[1..]), Flatten(b));
    }
  }

  lemma FlattenCons(line: Line, lines: seq<Line>)
    ensures Flatten([line] + lines) == line.title + (line.field + [NEWLINE]) + Flatten(lines)
  {
    assert ([line] + lines)[1..] == lines;
  }

  lemma JoinAssociates(x: Text, y: Text, z: Text)
    ensures x + (y + z) == (x + y) + z
  {
  }

  /** A search that stops in the readable part runs on to its last line break, and takes that with it. */
  lemma StrayStateHasALineBreak(readable: Text, rest: Text)
    requires |readable| >= 2 && readable[|readable| - 1] == NEWLINE == readable[|readable| - 2]
    requires NeverCloses(readable + rest, |readable|)
    requires Find(readable + rest, Opening(), 0).Some? && Find(readable + rest, Opening(), 0).value < |readable|
    ensures StateText(readable + rest).Some? ==> NEWLINE in StateText(readable + rest).value
  {
    OpeningIsAMark();
    hide Opening, Closing, At, Find, IsMark;
    var raw := readable + rest;
    var j := Find(raw, Opening(), 0).value;
    AtSplits(readable, rest, j, Opening());
    MarkEndsBeforeTheBlank(readable, j, Opening());
    var from := j + |Opening()|;
    var end := Find(raw, Closing(), from);
    if end.Some? {
      FoundIsInside(raw, Closing(), end.value);
      assert end.value >= |readable|;
      assert raw[from..end.value][|readable| - 1 - from] == NEWLINE;
    }
  }

  lemma FoundIsInside(raw: Text, mark: Text, i: int)
    requires At(raw, i, mark)
    ensures 0 <= i <= |raw|
  {
  }

  lemma MarkEndsBeforeTheBlank(text: Text, i: nat, mark: Text)
    requires IsMark(mark) && At(text, i, mark) && |text| >= 2 && text[|text| - 2] == NEWLINE
    ensures i + |mark| < |text|
  {
    var k := |mark| - 2;
    assert text[i..i + |mark|][k] == text[i + k];
  }

  /** With ids of one line each, the file gives its state back exactly when the ids are safe. */
  lemma StateIsRecoveredExactly(rules: Rules, m: Memory, state: Text)
    requires rules.control(NEWLINE) && Sound(rules, m.session, m.entries) && SingleLineIds(m) && NEWLINE !in state
    ensures StateText(Render(m, state)) == Some(state) <==> SafeIds(m)
  {
    hide Sound, ReadableLines, Flatten, SafeIds, At, Find, StateText, SingleLineIds, NeverCloses, StartsWithDashes, OneLineEach;
    if SafeIds(m) {
      StateIsRecovered(rules, m, state);
    } else {
      var readable, rest := Flatten(ReadableLines(m)), Opening() + (state + (Closing() + [NEWLINE]));
      ReadableIsOneLineEach(rules, m);
      assert !StartsWithDashes(rest) by { OpeningHasNoDashes(state + (Closing() + [NEWLINE])); }
      NoClosingInLines(ReadableLines(m), rest);
      ReadableEndsBlank(m);
      MarkerIsFoundExactlyWhenIdsAreSafe(rules, m, state);
      OpeningIsAt(readable, state + (Closing() + [NEWLINE]));
      assert Find(readable + rest, Opening(), 0).Some? && Find(readable + rest, Opening(), 0).value < |readable|;
      StrayStateHasALineBreak(readable, rest);
    }
  }

  lemma OpeningHasNoDashes(after: Text)
    ensures !StartsWithDashes(Opening() + after)
  {
    OpeningIsAMark();
  }

  /** The marker without its line break. */
  function HalfMarker(): Text {
    Literal("<!-- bitnp-memory-state")
  }

  /** A memory with one entry whose evidence id is that. */
  function UnsafeMemory(session: Text): Memory {
    var provenance := Provenance(UserRequest, Literal("trace"), session, Literal("turn"), HalfMarker());
    Memory(session, 1, [Entry(Literal("tea"), Literal("green"), provenance, OrdinaryPreference, 95, 0)], [], [], 0, 0)
  }

  lemma LiteralBytes(s: string)
    requires forall i :: 0 <= i < |s| ==> s[i] < 128 as char
    ensures Bytes(Literal(s)) == |s|
  {
    AsciiBytes(Literal(s));
  }

  lemma TeaIsValid(rules: Rules)
    requires forall c <- Literal("green") :: !rules.control(c)
    ensures ValidText(rules, Literal("tea"), Literal("green"))
  {
    var green := Literal("green");
    assert forall i :: 0 <= i < |green| ==> green[i] in green;
    assert !IsSpace(green[0]) && !IsSpace(green[|green| - 1]);
  }

  lemma ShortIdIsValid(s: string)
    requires 0 < |s| <= 256 && forall i :: 0 <= i < |s| ==> s[i] < 128 as char
    ensures ValidId(Literal(s))
  {
    LiteralBytes(s);
  }

  lemma UnsafeEntryIsAdmissible(rules: Rules, session: Text)
    requires rules.minimum <= 95 && !rules.sensitive(Literal("tea"), Literal("green"))
    requires forall c <- Literal("green") :: !rules.control(c)
    ensures Admissible(rules, session, UnsafeMemory(session).entries[0]) && ValidId(HalfMarker())
  {
    TeaIsValid(rules);
    ShortIdIsValid("trace");
    ShortIdIsValid("turn");
    ShortIdIsValid("<!-- bitnp-memory-state");
    hide Bytes, Literal, ValidText, ValidId;
  }

  lemma UnsafeMemoryIsSound(rules: Rules, session: Text)
    requires rules.minimum <= 95 && !rules.sensitive(Literal("tea"), Literal("green"))
    requires forall c <- Literal("green") :: !rules.control(c)
    ensures Inv(rules, UnsafeMemory(session)) && ValidId(HalfMarker())
  {
    UnsafeEntryIsAdmissible(rules, session);
    TeaIsShort();
    hide Inv, HalfMarker, ValidId, Literal, Bytes, Admissible;
    var e := UnsafeMemory(session).entries[0];
    OneEntryIsSound(rules, session, e);
    assert UnsafeMemory(session) == Memory(session, 1, [e], [], [], 0, 0);
  }

  lemma TeaIsShort()
    ensures Bytes(Literal("tea")) + Bytes(Literal("green")) <= MAX_TEXT_BYTES
  {
    LiteralBytes("tea");
    LiteralBytes("green");
  }

  lemma OneEntryIsSound(rules: Rules, session: Text, e: Entry)
    requires Admissible(rules, session, e) && Bytes(e.key) + Bytes(e.value) <= MAX_TEXT_BYTES
    ensures Inv(rules, Memory(session, 1, [e], [], [], 0, 0))
  {
    NothingIsSound(rules, session, 1);
    hide Admissible, Bytes, ConflictsFit, AuditsFit;
    assert [e][1..] == [] && Lookup([], e.key) == None;
    assert Sound(rules, session, [e]) && TextBytes([e]) == Bytes(e.key) + Bytes(e.value) + TextBytes([]);
  }

  lemma HalfMarkerIsUnsafe()
    ensures NEWLINE !in HalfMarker() && !SafeId(HalfMarker())
  {
    var id := HalfMarker();
    assert id + [NEWLINE] == Opening();
    assert At(id + [NEWLINE], 0, Opening());
  }

  lemma UnsafeMemoryIsUnsafe(session: Text)
    requires NEWLINE !in session
    ensures SingleLineIds(UnsafeMemory(session)) && !SafeIds(UnsafeMemory(session))
  {
    HalfMarkerIsUnsafe();
    LiteralIsOneLine("turn");
    hide Literal, HalfMarker, SafeId;
    assert !SafeId(UnsafeMemory(session).entries[0].provenance.evidence);
  }

  /**
   * An admissible id that becomes a marker only through the line break rendered behind it, in a memory that
   * keeps every rule: whatever the state is, the saved file does not give it back.
   */
  lemma AnUnsafeId(rules: Rules, session: Text, state: Text)
    requires rules.minimum <= 95 && !rules.sensitive(Literal("tea"), Literal("green")) && rules.control(NEWLINE)
    requires forall c <- Literal("green") :: !rules.control(c)
    requires NEWLINE !in session && NEWLINE !in state
    ensures NEWLINE !in HalfMarker() && ValidId(HalfMarker()) && !SafeId(HalfMarker())
    ensures Inv(rules, UnsafeMemory(session)) && StateText(Render(UnsafeMemory(session), state)) != Some(state)
  {
    hide Inv, Render, StateText, SingleLineIds, SafeIds, HalfMarker, SafeId, ValidId;
    HalfMarkerIsUnsafe();
    UnsafeMemoryIsSound(rules, session);
    UnsafeMemoryIsUnsafe(session);
    InvIsSound(rules, UnsafeMemory(session));
    assert UnsafeMemory(session).session == session;
    StateIsRecoveredExactly(rules, UnsafeMemory(session), state);
  }

  // ---------------------------------------------------------------------------------------------
  // What a reader of the file sees.

  /** The seven lines of an entry, as they are read. */
  function Readable(e: Entry): Text {
    Literal("## ") + (e.key + [NEWLINE])
    + (Literal("- 值: ") + (e.value + [NEWLINE]))
    + (Literal("- 类别: ") + (CategoryName(e.category) + [NEWLINE]))
    + (Literal("- 来源轮次: ") + (e.provenance.turn + [NEWLINE]))
    + (Literal("- 置信度: ") + (Decimal(e.confidence) + [NEWLINE]))
    + (Literal("- 更新时间(毫秒): ") + (Decimal(e.updatedAt) + [NEWLINE]))
    + (Literal("- 证据: ") + (e.provenance.evidence + [NEWLINE]))
  }

  lemma EntryReads(e: Entry)
    ensures Flatten(EntryLines(e)) == Readable(e)
  {
    var l := EntryLines(e);
    hide Literal, CategoryName, Decimal;
    FlattenTwo(l[0], l[1], l[2..]);
    FlattenTwo(l[2], l[3], l[4..]);
    FlattenTwo(l[4], l[5], l[6..]);
    FlattenCons(l[6], []);
    assert l == [l[0], l[1]] + l[2..] && l[2..] == [l[2], l[3]] + l[4..] && l[4..] == [l[4], l[5]] + l[6..] && l[6..] == [l[6]] + [];
    assert Flatten([]) == [];
  }

  lemma FlattenTwo(a: Line, b: Line, rest: seq<Line>)
    ensures Flatten([a, b] + rest)
         == a.title + (a.field + [NEWLINE]) + (b.title + (b.field + [NEWLINE])) + Flatten(rest)
  {
    FlattenCons(a, [b] + rest);
    FlattenCons(b, rest);
    assert [a] + ([b] + rest) == [a, b] + rest;
    hide Flatten;
  }

  lemma {:induction false} EntriesAreShown(entries: seq<Entry>, i: nat)
    requires i < |entries|
    ensures Occurs(Flatten(AllEntryLines(entries)), Readable(entries[i]))
  {
    hide Readable, EntryLines, Flatten;
    EntryReads(entries[0]);
    FlattenAppends(EntryLines(entries[0]), AllEntryLines(entries[1..]));
    var head, tail := Readable(entries[0]), Flatten(AllEntryLines(entries[1..]));
    if i == 0 {
      assert At(head + tail, 0, head);
    } else {
      EntriesAreShown(entries[1..], i - 1);
      ShowsBehind(head, tail, Readable(entries[i]));
    }
  }

  lemma ShowsBehind(before: Text, text: Text, part: Text)
    requires Occurs(text, part)
    ensures Occurs(before + text, part)
  {
    var i :| At(text, i, part);
    assert (before + text)[|before| + i..|before| + i + |part|] == part;
    assert At(before + text, |before| + i, part);
  }

  lemma ShowsBefore(text: Text, after: Text, part: Text)
    requires Occurs(text, part)
    ensures Occurs(text + after, part)
  {
    var i :| At(text, i, part);
    assert (text + after)[i..i + |part|] == part;
    assert At(text + after, i, part);
  }

  /** Every entry of the memory can be read in the file, whole. */
  lemma EveryEntryIsShown(m: Memory, state: Text, i: nat)
    requires i < |m.entries|
    ensures Occurs(Render(m, state), Readable(m.entries[i]))
  {
    hide Readable, Flatten, AllEntryLines, Occurs, Opening, Closing, Literal;
    var head := [Line(Literal("# 会话记忆"), []), BLANK, Line(Literal("会话: "), m.session), BLANK,
                 Line(Literal("版本: "), Decimal(m.revision)), BLANK];
    var tail := if m.entries == [] then [BLANK, BLANK] else [BLANK];
    EntriesAreShown(m.entries, i);
    FlattenAppends(head, AllEntryLines(m.entries));
    FlattenAppends(head + AllEntryLines(m.entries), tail);
    ShowsBehind(Flatten(head), Flatten(AllEntryLines(m.entries)), Readable(m.entries[i]));
    ShowsBefore(Flatten(head) + Flatten(AllEntryLines(m.entries)), Flatten(tail), Readable(m.entries[i]));
    ShowsBefore(Flatten(ReadableLines(m)), Opening() + (state + (Closing() + [NEWLINE])), Readable(m.entries[i]));
  }
}
