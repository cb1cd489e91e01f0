/**
 * src/orchestrator/memory_store.py: a memory as `memory.md` and back. The text of the JSON state is a
 * parameter, as is its parser; what is assumed of them is said where they meet.
 */
module MemoryStores {
  import opened Common
  import opened Utf8
  import opened Memories

  const MAX_DOCUMENT_BYTES := 262_144
  const NEWLINE: Scalar := 0x0A
  const LESS_THAN: Scalar := 0x3C

  /** A document field that may be missing or of the wrong type. */
  datatype Field<T> = Absent | Mistyped | Present(value: T)

  /** An array element; anything but an object is refused. */
  datatype Element<T> = NoObject | Object(fields: T)

  /** For a name that should be one of an enumeration, `None` is any other text. */
  datatype EntryFields = EntryFields(
    key: Field<Text>, value: Field<Text>, category: Field<Option<Category>>, confidence: Field<int>,
    updatedAt: Field<int>, source: Field<Option<Source>>, trace: Field<Text>, session: Field<Text>,
    turn: Field<Text>, evidence: Field<Text>)

  datatype ConflictFields = ConflictFields(
    key: Field<Text>, replaced: Field<Text>, replacement: Field<Text>,
    replacedConfidence: Field<int>, confidence: Field<int>)

  datatype AuditFields = AuditFields(
    revision: Field<int>, action: Field<Option<Action>>, key: Field<Text>, previousDigest: Field<Text>,
    digest: Field<Text>, trace: Field<Text>, turn: Field<Text>, evidence: Field<Text>, updatedAt: Field<int>)

  datatype Document = Document(
    version: Field<int>, session: Field<Text>, revision: Field<int>,
    preferences: Field<seq<Element<EntryFields>>>,
    conflicts: Field<seq<Element<ConflictFields>>>, audit: Field<seq<Element<AuditFields>>>)

  function EntryDocument(e: Entry): Element<EntryFields> {
    Object(EntryFields(
      Present(e.key), Present(e.value), Present(Some(e.category)), Present(e.confidence), Present(e.updatedAt),
      Present(Some(e.provenance.source)), Present(e.provenance.trace), Present(e.provenance.session),
      Present(e.provenance.turn), Present(e.provenance.evidence)))
  }

  function ConflictDocument(c: Conflict): Element<ConflictFields> {
    Object(ConflictFields(
      Present(c.key), Present(c.replaced), Present(c.replacement), Present(c.replacedConfidence), Present(c.confidence)))
  }

  function AuditDocument(a: Audit): Element<AuditFields> {
    Object(AuditFields(
      Present(a.revision), Present(Some(a.action)), Present(a.key), Present(a.previousDigest), Present(a.digest),
      Present(a.trace), Present(a.turn), Present(a.evidence), Present(a.updatedAt)))
  }

  /** `_document_for_snapshot` */
  function DocumentOf(m: Memory): Document {
    Document(
      Present(2), Present(m.session), Present(m.revision),
      Present(seq(|m.entries|, i requires 0 <= i < |m.entries| => EntryDocument(m.entries[i]))),
      Present(seq(|m.conflicts|, i requires 0 <= i < |m.conflicts| => ConflictDocument(m.conflicts[i]))),
      Present(seq(|m.audit|, i requires 0 <= i < |m.audit| => AuditDocument(m.audit[i]))))
  }

  /** `_optional_integer` */
  function OrDefault(f: Field<int>, default: int): Option<int> {
    match f
    case Absent => Some(default)
    case Mistyped => None
    case Present(v) => Some(v)
  }

  function EntryFrom(element: Element<EntryFields>): Option<Entry> {
    if element.NoObject? then None
    else
      var f := element.fields;
      var confidence, updatedAt := OrDefault(f.confidence, 100), OrDefault(f.updatedAt, 0);
      var category := if f.category.Absent? then Some(OrdinaryPreference)
                      else if f.category.Present? then f.category.value else None;
      if f.key.Present? && f.value.Present? && category.Some? && confidence.Some? && updatedAt.Some?
         && f.source.Present? && f.source.value.Some? && f.trace.Present? && f.session.Present?
         && f.turn.Present? && f.evidence.Present?
      then Some(Entry(f.key.value, f.value.value,
                      Provenance(f.source.value.value, f.trace.value, f.session.value, f.turn.value, f.evidence.value),
                      category.value, confidence.value, updatedAt.value))
      else None
  }

  function ConflictFrom(rules: Rules, element: Element<ConflictFields>): Option<Conflict> {
    if element.NoObject? then None
    else
      var f := element.fields;
      if f.key.Present? && f.replaced.Present? && f.replacement.Present?
         && f.replacedConfidence.Present? && f.confidence.Present?
      then
        var c := Conflict(f.key.value, f.replaced.value, f.replacement.value, f.replacedConfidence.value, f.confidence.value);
        if ConflictFits(rules, c) then Some(c) else None
      else None
  }

  function AuditFrom(revision: int, element: Element<AuditFields>): Option<Audit> {
    if element.NoObject? then None
    else
      var f := element.fields;
      if f.revision.Present? && f.action.Present? && f.action.value.Some? && f.key.Present? && f.previousDigest.Present?
         && f.digest.Present? && f.trace.Present? && f.turn.Present? && f.evidence.Present? && f.updatedAt.Present?
      then
        var a := Audit(f.revision.value, f.action.value.value, f.key.value, f.previousDigest.value, f.digest.value,
                       f.trace.value, f.turn.value, f.evidence.value, f.updatedAt.value);
        if AuditFits(revision, a) then Some(a) else None
      else None
  }

  /** All elements, or nothing if one of them is refused. */
  function All<S, T>(xs: seq<S>, from: S -> Option<T>): (ys: Option<seq<T>>)
    ensures ys.Some? <==> forall i :: 0 <= i < |xs| ==> from(xs[i]).Some?
    ensures ys.Some? ==> |ys.value| == |xs| && forall i :: 0 <= i < |xs| ==> from(xs[i]) == Some(ys.value[i])
  {
    if xs == [] then Some([])
    else
      var earlier, last := All(xs[..|xs| - 1], from), from(xs[|xs| - 1]);
      if earlier.Some? && last.Some? then Some(earlier.value + [last.value]) else None
  }

  datatype Loaded = Fresh | Failed | Restored(memory: Memory)

  /** `_audit_items` and the loops over them; a missing array is an empty one. */
  function Conflicts(rules: Rules, d: Document): Option<seq<Conflict>> {
    match d.conflicts
    case Absent => Some([])
    case Mistyped => None
    case Present(items) =>
      if |items| > MAX_AUDITS || |items| > MAX_CONFLICTS then None else All(items, x => ConflictFrom(rules, x))
  }

  function Audits(revision: int, d: Document): Option<seq<Audit>> {
    match d.audit
    case Absent => Some([])
    case Mistyped => None
    case Present(items) => if |items| > MAX_AUDITS then None else All(items, x => AuditFrom(revision, x))
  }

  function ProposalOf(e: Entry, revision: int): Proposal {
    Proposal(e.key, e.value, e.category, e.confidence, revision, e.provenance)
  }

  /** The entries are put, one after the other, through the admission of an empty memory. */
  function Validated(rules: Rules, validator: Memory, entries: seq<Entry>): bool
    decreases |entries|
  {
    entries == [] || (
      var p := ProposalOf(entries[0], validator.revision);
      && Rejected(rules, validator, p) == None
      && Lookup(validator.entries, entries[0].key) == None
      && Validated(rules, Commit(rules, validator, p, 0, 0), entries[1..]))
  }

  function Blank(session: Text): Memory {
    Memory(session, 0, [], [], [], 0, 0)
  }

  /** `_snapshot_from_document`, and the restored memory. `rules` are the default ones, with a minimum of 90. */
  function FromDocument(rules: Rules, d: Document, session: Text): Loaded {
    var version := OrDefault(d.version, 1);
    if version != Some(1) && version != Some(2) then Failed
    else if !d.session.Present? then Failed
    else if d.session.value != session then Fresh
    else if !d.preferences.Present? then Failed
    else
      var entries := All(d.preferences.value, EntryFrom);
      if entries == None then Failed
      else if exists i :: 0 <= i < |entries.value| && entries.value[i].provenance.session != session then Fresh
      else if !Validated(rules, Blank(session), entries.value) then Failed
      else if !d.revision.Present? || d.revision.value < 0 then Failed
      else
        var conflicts, audit := Conflicts(rules, d), Audits(d.revision.value, d);
        if conflicts == None || audit == None then Failed
        else Restored(Memory(session, d.revision.value, entries.value, conflicts.value, audit.value, 0, 0))
  }

  ghost predicate Apart(entries: seq<Entry>, others: seq<Entry>) {
    forall i :: 0 <= i < |entries| ==> Lookup(others, entries[i].key) == None
  }

  lemma {:induction false} UpsertAppends(entries: seq<Entry>, e: Entry)
    requires Lookup(entries, e.key) == None
    ensures Upsert(entries, e) == entries + [e]
    ensures TextBytes(entries + [e]) == TextBytes(entries) + Bytes(e.key) + Bytes(e.value)
    ensures forall key :: Lookup(entries + [e], key) == if key == e.key then Some(e) else Lookup(entries, key)
  {
    hide Bytes;
    if entries != [] {
      UpsertAppends(entries[1..], e);
      assert (entries + [e])[1..] == entries[1..] + [e];
    }
  }

  lemma {:induction false} NotFound(entries: seq<Entry>, key: Text)
    ensures Lookup(entries, key) == None <==> forall i :: 0 <= i < |entries| ==> entries[i].key != key
  {
    if entries != [] {
      NotFound(entries[1..], key);
      forall i | 0 <= i < |entries| && i > 0 ensures entries[i] == entries[1..][i - 1] { }
      forall i | 0 <= i < |entries[1..]| ensures entries[1..][i] == entries[i + 1] { }
    }
  }

  /** Room for what is still to come, and none of it there yet. */
  ghost predicate Ready(v: Memory, entries: seq<Entry>) {
    && Apart(entries, v.entries)
    && |v.entries| + |entries| <= MAX_ENTRIES && TextBytes(v.entries) + TextBytes(entries) <= MAX_TEXT_BYTES
  }

  lemma ReadyMoves(rules: Rules, v: Memory, entries: seq<Entry>)
    requires entries != [] && Lookup(v.entries, entries[0].key) == None
    ensures var t := Commit(rules, v, ProposalOf(entries[0], v.revision), 0, 0);
            && |t.entries| == |v.entries| + 1
            && TextBytes(t.entries) == TextBytes(v.entries) + Bytes(entries[0].key) + Bytes(entries[0].value)
            && (Lookup(entries[1..], entries[0].key) == None && Apart(entries, v.entries) ==> Apart(entries[1..], t.entries))
            && (Apart(entries[1..], t.entries) ==>
                  Apart(entries, v.entries) && Lookup(entries[1..], entries[0].key) == None)
  {
    hide Bytes, TextBytes, Upsert, Lookup, Audited, Digest;
    var e := EntryOf(ProposalOf(entries[0], v.revision), 0);
    UpsertAppends(v.entries, e);
    NotFound(entries[1..], entries[0].key);
    forall i | 0 < i < |entries| ensures entries[i] == entries[1..][i - 1] { }
  }

  lemma NewEntryFits(rules: Rules, v: Memory, e: Entry)
    requires Lookup(v.entries, e.key) == None
    ensures Rejected(rules, v, ProposalOf(e, v.revision)) == None <==>
            && Admissible(rules, v.session, e) && |v.entries| + 1 <= MAX_ENTRIES
            && TextBytes(v.entries) + Bytes(e.key) + Bytes(e.value) <= MAX_TEXT_BYTES
  {
    hide Bytes, TextBytes, Upsert, Lookup, ValidText, ValidId;
    UpsertAppends(v.entries, EntryOf(ProposalOf(e, v.revision), 0));
  }

  /** Putting entries through the validator succeeds exactly when they are sound and there is room for them. */
  lemma {:induction false} ValidatedExactlyWhenSound(rules: Rules, v: Memory, entries: seq<Entry>)
    requires |v.entries| <= MAX_ENTRIES && TextBytes(v.entries) <= MAX_TEXT_BYTES
    ensures Validated(rules, v, entries) <==> Sound(rules, v.session, entries) && Ready(v, entries)
    decreases |entries|
  {
    hide Admissible, Bytes, Lookup, Rejected, Commit, Upsert;
    if entries != [] {
      var e, t := entries[0], Commit(rules, v, ProposalOf(entries[0], v.revision), 0, 0);
      assert TextBytes(entries) == Bytes(e.key) + Bytes(e.value) + TextBytes(entries[1..]);
      if Lookup(v.entries, e.key) == None {
        ReadyMoves(rules, v, entries);
        NewEntryFits(rules, v, e);
        CommitKeepsSession(rules, v, entries[0]);
        if |t.entries| <= MAX_ENTRIES && TextBytes(t.entries) <= MAX_TEXT_BYTES {
          ValidatedExactlyWhenSound(rules, t, entries[1..]);
        }
      }
    }
  }

  lemma CommitKeepsSession(rules: Rules, v: Memory, e: Entry)
    ensures Commit(rules, v, ProposalOf(e, v.revision), 0, 0).session == v.session
  {
    hide Upsert, Lookup, Audited;
  }

  lemma BlankIsReady(session: Text, entries: seq<Entry>)
    ensures Ready(Blank(session), entries) <==> |entries| <= MAX_ENTRIES && TextBytes(entries) <= MAX_TEXT_BYTES
    ensures |Blank(session).entries| == 0 && TextBytes(Blank(session).entries) == 0
  {
    forall i | 0 <= i < |entries| ensures Lookup([], entries[i].key) == None { }
  }

  /** Whatever the file says, a memory that loads keeps every bound and admission rule. */
  lemma LoadedIsSound(rules: Rules, d: Document, session: Text)
    requires FromDocument(rules, d, session).Restored?
    ensures var t := FromDocument(rules, d, session).memory; t.session == session && Inv(rules, t)
  {
    hide Sound, Validated, Ready, EntryFrom, ConflictFits, AuditFits;
    var entries := All(d.preferences.value, EntryFrom).value;
    BlankIsReady(session, entries);
    ValidatedExactlyWhenSound(rules, Blank(session), entries);
    LoadedConflictsFit(rules, d);
    LoadedAuditsFit(d.revision.value, d);
  }

  lemma LoadedConflictsFit(rules: Rules, d: Document)
    requires Conflicts(rules, d).Some?
    ensures ConflictsFit(rules, Conflicts(rules, d).value)
  {
    hide ConflictFits;
    if d.conflicts.Present? {
      var items, conflicts := d.conflicts.value, Conflicts(rules, d).value;
      forall i | 0 <= i < |conflicts| ensures ConflictFits(rules, conflicts[i]) {
        assert ConflictFrom(rules, items[i]) == Some(conflicts[i]);
      }
    }
  }

  lemma LoadedAuditsFit(revision: int, d: Document)
    requires Audits(revision, d).Some?
    ensures AuditsFit(revision, Audits(revision, d).value)
  {
    hide AuditFits;
    if d.audit.Present? {
      var items, audit := d.audit.value, Audits(revision, d).value;
      forall i | 0 <= i < |audit| ensures AuditFits(revision, audit[i]) {
        assert AuditFrom(revision, items[i]) == Some(audit[i]);
      }
    }
  }

  /** Loading validates with the default policy, whatever the policy of the memory that was saved. */
  function Default(rules: Rules): Rules {
    rules.(minimum := 90)
  }

  predicate Confident(entries: seq<Entry>) {
    forall i :: 0 <= i < |entries| ==> entries[i].confidence >= 90
  }

  lemma {:induction false} SoundByDefault(rules: Rules, session: Text, entries: seq<Entry>)
    requires Sound(rules, session, entries)
    ensures Sound(Default(rules), session, entries) <==> Confident(entries)
    ensures forall i :: 0 <= i < |entries| ==> entries[i].provenance.session == session
  {
    hide ValidText, ValidId, Lookup;
    if entries != [] {
      SoundByDefault(rules, session, entries[1..]);
      RulesShareText(rules, entries[0].key, entries[0].value);
      forall i | 0 < i < |entries| ensures entries[i] == entries[1..][i - 1] { }
      forall i | 0 <= i < |entries[1..]| ensures entries[1..][i] == entries[i + 1] { }
    }
  }

  lemma EntriesComeBack(m: Memory)
    ensures All(DocumentOf(m).preferences.value, EntryFrom) == Some(m.entries)
  {
    var items := DocumentOf(m).preferences.value;
    forall i | 0 <= i < |items| ensures EntryFrom(items[i]) == Some(m.entries[i]) { }
    assert All(items, EntryFrom).value == m.entries;
  }

  lemma ConflictsComeBack(rules: Rules, m: Memory)
    requires ConflictsFit(rules, m.conflicts)
    ensures Conflicts(Default(rules), DocumentOf(m)) == Some(m.conflicts)
  {
    hide ValidText;
    var items := DocumentOf(m).conflicts.value;
    forall i | 0 <= i < |items| ensures ConflictFrom(Default(rules), items[i]) == Some(m.conflicts[i]) {
      assert ConflictFits(rules, m.conflicts[i]);
      RulesShareText(rules, m.conflicts[i].key, m.conflicts[i].replaced);
      RulesShareText(rules, m.conflicts[i].key, m.conflicts[i].replacement);
    }
    assert Conflicts(Default(rules), DocumentOf(m)).value == m.conflicts;
  }

  lemma RulesShareText(rules: Rules, key: Text, value: Text)
    ensures ValidText(Default(rules), key, value) == ValidText(rules, key, value)
  {
  }

  lemma AuditsComeBack(m: Memory)
    requires AuditsFit(m.revision, m.audit)
    ensures Audits(m.revision, DocumentOf(m)) == Some(m.audit)
  {
    hide AuditFits;
    var items := DocumentOf(m).audit.value;
    forall i | 0 <= i < |items| ensures AuditFrom(m.revision, items[i]) == Some(m.audit[i]) {
      assert AuditFits(m.revision, m.audit[i]);
    }
    assert Audits(m.revision, DocumentOf(m)).value == m.audit;
  }

  /**
   * The document of a memory gives that memory back, order included, except for the profile and consent
   * revisions, which it does not hold; and it is refused exactly when a policy below 90 let an entry in that
   * the default one would not.
   */
  lemma LoadingWhatWasSaved(rules: Rules, m: Memory)
    requires Inv(rules, m)
    ensures FromDocument(Default(rules), DocumentOf(m), m.session)
         == if Confident(m.entries) then Restored(m.(profileRevision := 0, consentRevision := 0)) else Failed
  {
    hide Sound, Validated, Ready, ConflictsFit, AuditsFit, Confident, EntryFrom;
    SoundByDefault(rules, m.session, m.entries);
    EntriesComeBack(m);
    ConflictsComeBack(rules, m);
    AuditsComeBack(m);
    BlankIsReady(m.session, m.entries);
    ValidatedExactlyWhenSound(Default(rules), Blank(m.session), m.entries);
  }

  /** What turns a document away, and what makes it count as none. */
  lemma DocumentsTurnedAway(rules: Rules, d: Document, session: Text)
    ensures d.version == Mistyped || (d.version.Present? && d.version.value != 1 && d.version.value != 2) ==>
              FromDocument(rules, d, session) == Failed
    ensures (d.version == Absent || d.version == Present(1) || d.version == Present(2)) ==>
              && (!d.session.Present? ==> FromDocument(rules, d, session) == Failed)
              && (d.session.Present? && d.session.value != session ==> FromDocument(rules, d, session) == Fresh)
              && (d.session == Present(session) && !d.preferences.Present? ==> FromDocument(rules, d, session) == Failed)
    ensures FromDocument(rules, d, session).Restored? ==>
              && d.revision.Present? && d.revision.value >= 0
              && (d.conflicts.Present? ==> |d.conflicts.value| <= 16) && d.conflicts != Mistyped
              && (d.audit.Present? ==> |d.audit.value| <= 64) && d.audit != Mistyped
  {
    hide Validated, EntryFrom, ConflictFrom, AuditFrom;
  }

  /** A restored memory has the document's revision and, in order, what its entries, conflicts and audits say. */
  lemma RestoredAsWritten(rules: Rules, d: Document, session: Text)
    requires FromDocument(rules, d, session).Restored?
    ensures var t := FromDocument(rules, d, session).memory;
            && t.revision == d.revision.value && t.profileRevision == 0 && t.consentRevision == 0
            && |t.entries| == |d.preferences.value|
            && (forall i :: 0 <= i < |t.entries| ==> EntryFrom(d.preferences.value[i]) == Some(t.entries[i]))
            && (if d.conflicts == Absent then t.conflicts == []
                else |t.conflicts| == |d.conflicts.value|
                     && forall i :: 0 <= i < |t.conflicts| ==> ConflictFrom(rules, d.conflicts.value[i]) == Some(t.conflicts[i]))
            && (if d.audit == Absent then t.audit == []
                else |t.audit| == |d.audit.value|
                     && forall i :: 0 <= i < |t.audit| ==> AuditFrom(t.revision, d.audit.value[i]) == Some(t.audit[i]))
  {
    hide Validated, EntryFrom, ConflictFrom, AuditFrom;
    DocumentsTurnedAway(rules, d, session);
  }
}
