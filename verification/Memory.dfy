/**
 * src/orchestrator/memory.py and memory_policy.py: the session's memory, its admission rules and its bounded
 * audit trails. An insertion-ordered dictionary is a sequence of entries with distinct keys.
 */
module Memories {
  import opened Common
  import opened Utf8

  const MAX_PROVENANCE_BYTES := 256
  const MAX_CONFIDENCE := 100
  const MAX_ENTRIES := 32
  const MAX_TEXT_BYTES := 16_384
  const MAX_AUDITS := 64
  const MAX_CONFLICTS := 16
  const MAX_KEY_CHARS := 128
  const MAX_VALUE_CHARS := 512

  datatype Category = OrdinaryPreference | Restricted | Biometric | Identity | Authorization

  datatype Source = AgentProposal | UserRequest

  datatype Provenance = Provenance(source: Source, trace: Text, session: Text, turn: Text, evidence: Text)

  datatype Proposal = Proposal(
    key: Text, value: Text, category: Category, confidence: int, baseRevision: int, provenance: Provenance)

  datatype Entry = Entry(
    key: Text, value: Text, provenance: Provenance, category: Category, confidence: int, updatedAt: int)

  datatype Conflict = Conflict(key: Text, replaced: Text, replacement: Text, replacedConfidence: int, confidence: int)

  datatype Action = Add | Replace | Delete

  datatype Audit = Audit(
    revision: int, action: Action, key: Text, previousDigest: Text, digest: Text,
    trace: Text, turn: Text, evidence: Text, updatedAt: int)

  /** What stays uninterpreted: the sensitive patterns, the Unicode control category, the hash. */
  datatype Rules = Rules(sensitive: (Text, Text) -> bool, control: Scalar -> bool, digest: Text -> Text, minimum: int)

  datatype Memory = Memory(
    session: Text, revision: nat, entries: seq<Entry>, conflicts: seq<Conflict>, audit: seq<Audit>,
    profileRevision: nat, consentRevision: nat)

  function Bytes(text: Text): (n: nat) {
    |Encode(text)|
  }

  predicate IsKeyChar(c: Scalar) {
    0x61 <= c <= 0x7A || 0x30 <= c <= 0x39 || c == 0x5F
  }

  /** `[a-z][a-z0-9]*(?:_[a-z0-9]+)*`: lower-case words and digits, single underscores between them. */
  predicate IsKey(key: Text) {
    && key != [] && 0x61 <= key[0] <= 0x7A
    && (forall i :: 0 <= i < |key| ==> IsKeyChar(key[i]))
    && key[|key| - 1] != 0x5F
    && (forall i :: 0 < i < |key| ==> key[i - 1] != 0x5F || key[i] != 0x5F)
  }

  /** `valid_memory_text` */
  predicate ValidText(rules: Rules, key: Text, value: Text) {
    && |key| <= MAX_KEY_CHARS && IsKey(key)
    && 0 < |value| <= MAX_VALUE_CHARS && Strip(value) == value
    && (forall i :: 0 <= i < |value| ==> !rules.control(value[i]))
    && (forall i :: 0 <= i < |value| ==> value[i] != 0x3C && value[i] != 0x3E)
  }

  predicate ValidId(id: Text) {
    id != [] && Bytes(id) <= MAX_PROVENANCE_BYTES
  }

  function Lookup(entries: seq<Entry>, key: Text): Option<Entry> {
    if entries == [] then None else if entries[0].key == key then Some(entries[0]) else Lookup(entries[1..], key)
  }

  /** Assignment to a dictionary: an existing key keeps its place. */
  function Upsert(entries: seq<Entry>, entry: Entry): seq<Entry> {
    if entries == [] then [entry]
    else if entries[0].key == entry.key then [entry] + entries[1..]
    else [entries[0]] + Upsert(entries[1..], entry)
  }

  function Remove(entries: seq<Entry>, key: Text): seq<Entry> {
    if entries == [] then []
    else if entries[0].key == key then Remove(entries[1..], key)
    else [entries[0]] + Remove(entries[1..], key)
  }

  function TextBytes(entries: seq<Entry>): nat {
    if entries == [] then 0 else Bytes(entries[0].key) + Bytes(entries[0].value) + TextBytes(entries[1..])
  }

  datatype Rejection =
    | StaleProposal | SessionMismatch | RestrictedCategory | InvalidFormat
    | UnsupportedAssertion | CapacityExceeded | ConflictingValue

  function EntryOf(p: Proposal, now: int): Entry {
    Entry(p.key, p.value, p.provenance, p.category, p.confidence, now)
  }

  /** `_rejection`; the checks come in this order. */
  function Rejected(rules: Rules, m: Memory, p: Proposal): Option<Rejection> {
    if p.baseRevision != m.revision then Some(StaleProposal)
    else if p.provenance.session != m.session then Some(SessionMismatch)
    else if p.category != OrdinaryPreference || rules.sensitive(p.key, p.value) then Some(RestrictedCategory)
    else if !ValidText(rules, p.key, p.value) then Some(InvalidFormat)
    else if !ValidId(p.provenance.trace) || !ValidId(p.provenance.turn) || !ValidId(p.provenance.evidence) then
      Some(InvalidFormat)
    else if !(rules.minimum <= p.confidence <= MAX_CONFIDENCE) then Some(UnsupportedAssertion)
    else
      var projected, existing := Upsert(m.entries, EntryOf(p, 0)), Lookup(m.entries, p.key);
      if |projected| > MAX_ENTRIES || TextBytes(projected) > MAX_TEXT_BYTES then Some(CapacityExceeded)
      else if existing.Some? && existing.value.value != p.value && p.confidence <= existing.value.confidence then
        Some(ConflictingValue)
      else None
  }

  function Last<T>(xs: seq<T>, n: nat): (ys: seq<T>)
    ensures |ys| <= n && |ys| <= |xs| && ys == xs[|xs| - |ys|..]
  {
    if |xs| > n then xs[|xs| - n..] else xs
  }

  function Digest(rules: Rules, entry: Option<Entry>): Text {
    if entry.None? then [] else rules.digest(entry.value.value)
  }

  function Audited(
    rules: Rules, revision: nat, key: Text, previous: Option<Entry>, current: Option<Entry>,
    provenance: Option<Provenance>, now: int): Audit
  {
    Audit(revision, if current.None? then Delete else if previous.None? then Add else Replace, key,
          Digest(rules, previous), Digest(rules, current),
          if provenance.None? then [] else provenance.value.trace,
          if provenance.None? then [] else provenance.value.turn,
          if provenance.None? then [] else provenance.value.evidence, now)
  }

  function ConflictsAfter(m: Memory, p: Proposal): seq<Conflict> {
    var existing := Lookup(m.entries, p.key);
    if existing.Some? && existing.value.value != p.value then
      Last(m.conflicts + [Conflict(p.key, existing.value.value, p.value, existing.value.confidence, p.confidence)],
           MAX_CONFLICTS)
    else m.conflicts
  }

  /** An accepted `reduce`; the clock is read once for the entry and once for its audit. */
  function Commit(rules: Rules, m: Memory, p: Proposal, now: int, auditedAt: int): Memory {
    var entry, existing := EntryOf(p, now), Lookup(m.entries, p.key);
    m.(revision := m.revision + 1, conflicts := ConflictsAfter(m, p), entries := Upsert(m.entries, entry),
       audit := Last(m.audit + [Audited(rules, m.revision + 1, p.key, existing, Some(entry), Some(p.provenance), auditedAt)],
                     MAX_AUDITS))
  }

  function ConflictsWithout(conflicts: seq<Conflict>, key: Text): (rest: seq<Conflict>)
    ensures |rest| <= |conflicts|
    ensures forall i :: 0 <= i < |rest| ==> rest[i] in conflicts
  {
    if conflicts == [] then []
    else
      var rest := ConflictsWithout(conflicts[1..], key);
      assert forall c <- rest :: c in conflicts[1..];
      if conflicts[0].key == key then rest else [conflicts[0]] + rest
  }

  function Deleted(rules: Rules, m: Memory, key: Text, provenance: Option<Provenance>, now: int): Memory {
    m.(entries := Remove(m.entries, key), revision := m.revision + 1, conflicts := ConflictsWithout(m.conflicts, key),
       audit := Last(m.audit + [Audited(rules, m.revision + 1, key, Lookup(m.entries, key), None, provenance, now)],
                     MAX_AUDITS))
  }

  function Cleared(m: Memory): Memory {
    m.(entries := [], conflicts := [], audit := [], revision := m.revision + 1)
  }

  datatype Operation =
    | Reducing(proposal: Proposal, now: int, auditedAt: int)
    | Deleting(key: Text, provenance: Option<Provenance>, now: int)
    | Clearing
    | SettingRevisions(profile: nat, consent: nat)

  function Step(rules: Rules, m: Memory, op: Operation): Memory {
    match op
    case Reducing(p, now, auditedAt) => if Rejected(rules, m, p) == None then Commit(rules, m, p, now, auditedAt) else m
    case Deleting(key, provenance, now) => Deleted(rules, m, key, provenance, now)
    case Clearing => Cleared(m)
    case SettingRevisions(profile, consent) => m.(profileRevision := profile, consentRevision := consent)
  }

  predicate Admissible(rules: Rules, session: Text, e: Entry) {
    && e.category == OrdinaryPreference && !rules.sensitive(e.key, e.value) && ValidText(rules, e.key, e.value)
    && ValidId(e.provenance.trace) && ValidId(e.provenance.turn) && ValidId(e.provenance.evidence)
    && e.provenance.session == session && rules.minimum <= e.confidence <= MAX_CONFIDENCE
  }

  /** Admissible entries under distinct keys. */
  predicate Sound(rules: Rules, session: Text, entries: seq<Entry>) {
    entries == [] || (
      && Admissible(rules, session, entries[0]) && Lookup(entries[1..], entries[0].key) == None
      && Sound(rules, session, entries[1..]))
  }

  predicate ConflictFits(rules: Rules, c: Conflict) {
    && ValidText(rules, c.key, c.replaced) && !rules.sensitive(c.key, c.replaced)
    && ValidText(rules, c.key, c.replacement) && !rules.sensitive(c.key, c.replacement)
    && 0 <= c.replacedConfidence <= MAX_CONFIDENCE && 0 <= c.confidence <= MAX_CONFIDENCE
  }

  predicate AuditFits(revision: int, a: Audit) {
    && 0 < a.revision <= revision
    && Bytes(a.key) <= MAX_PROVENANCE_BYTES && Bytes(a.trace) <= MAX_PROVENANCE_BYTES
    && Bytes(a.turn) <= MAX_PROVENANCE_BYTES && Bytes(a.evidence) <= MAX_PROVENANCE_BYTES
  }

  ghost predicate ConflictsFit(rules: Rules, conflicts: seq<Conflict>) {
    |conflicts| <= MAX_CONFLICTS && forall i :: 0 <= i < |conflicts| ==> ConflictFits(rules, conflicts[i])
  }

  ghost predicate AuditsFit(revision: int, audit: seq<Audit>) {
    |audit| <= MAX_AUDITS && forall i :: 0 <= i < |audit| ==> AuditFits(revision, audit[i])
  }

  ghost predicate Inv(rules: Rules, m: Memory) {
    && Sound(rules, m.session, m.entries) && |m.entries| <= MAX_ENTRIES && TextBytes(m.entries) <= MAX_TEXT_BYTES
    && ConflictsFit(rules, m.conflicts) && AuditsFit(m.revision, m.audit)
  }

  lemma {:induction false} UpsertKeepsSound(rules: Rules, session: Text, entries: seq<Entry>, e: Entry)
    requires Sound(rules, session, entries) && Admissible(rules, session, e)
    ensures Sound(rules, session, Upsert(entries, e))
    ensures forall key :: Lookup(Upsert(entries, e), key) == if key == e.key then Some(e) else Lookup(entries, key)
  {
    hide Admissible;
    if entries != [] && entries[0].key != e.key {
      UpsertKeepsSound(rules, session, entries[1..], e);
      assert Upsert(entries, e)[1..] == Upsert(entries[1..], e);
    } else if entries != [] {
      assert Upsert(entries, e)[1..] == entries[1..];
    }
  }

  lemma {:induction false} RemoveKeepsSound(rules: Rules, session: Text, entries: seq<Entry>, key: Text)
    requires Sound(rules, session, entries)
    ensures Sound(rules, session, Remove(entries, key))
    ensures forall k :: Lookup(Remove(entries, key), k) == if k == key then None else Lookup(entries, k)
    ensures |Remove(entries, key)| <= |entries| && TextBytes(Remove(entries, key)) <= TextBytes(entries)
  {
    hide Admissible, Bytes;
    if entries != [] {
      RemoveKeepsSound(rules, session, entries[1..], key);
      if entries[0].key != key {
        assert Remove(entries, key)[1..] == Remove(entries[1..], key);
      }
    }
  }

  lemma {:induction false} FoundIsAdmissible(rules: Rules, session: Text, entries: seq<Entry>, key: Text)
    requires Sound(rules, session, entries) && Lookup(entries, key).Some?
    ensures Admissible(rules, session, Lookup(entries, key).value) && Lookup(entries, key).value.key == key
  {
    hide Admissible;
    if entries[0].key != key {
      FoundIsAdmissible(rules, session, entries[1..], key);
    }
  }

  lemma {:induction false} AsciiBytes(text: Text)
    requires forall i :: 0 <= i < |text| ==> text[i] < 0x80
    ensures Bytes(text) == |text|
  {
    if text != [] {
      AsciiBytes(text[1..]);
    }
  }

  lemma KeyIsShort(rules: Rules, key: Text, value: Text)
    requires ValidText(rules, key, value)
    ensures Bytes(key) <= MAX_PROVENANCE_BYTES
  {
    AsciiBytes(key);
  }

  lemma OneMoreAudit(revision: int, audit: seq<Audit>, a: Audit)
    requires AuditsFit(revision, audit) && AuditFits(revision + 1, a)
    ensures AuditsFit(revision + 1, Last(audit + [a], MAX_AUDITS))
  {
    hide Bytes;
  }

  lemma OneMoreConflict(rules: Rules, conflicts: seq<Conflict>, c: Conflict)
    requires ConflictsFit(rules, conflicts) && ConflictFits(rules, c)
    ensures ConflictsFit(rules, Last(conflicts + [c], MAX_CONFLICTS))
  {
    hide ConflictFits;
  }

  lemma FewerConflicts(rules: Rules, conflicts: seq<Conflict>, key: Text)
    requires ConflictsFit(rules, conflicts)
    ensures ConflictsFit(rules, ConflictsWithout(conflicts, key))
  {
    hide ConflictFits;
  }

  lemma AcceptedIsAdmissible(rules: Rules, m: Memory, p: Proposal, now: int)
    requires Rejected(rules, m, p) == None
    ensures Admissible(rules, m.session, EntryOf(p, now))
  {
    hide ValidText, ValidId, TextBytes, Upsert, Lookup;
  }

  /** Capacity does not depend on the time stamp. */
  lemma {:induction false} UpsertSize(entries: seq<Entry>, e: Entry, f: Entry)
    requires e.key == f.key && e.value == f.value
    ensures |Upsert(entries, e)| == |Upsert(entries, f)| && TextBytes(Upsert(entries, e)) == TextBytes(Upsert(entries, f))
  {
    hide Bytes;
    if entries != [] && entries[0].key != e.key {
      UpsertSize(entries[1..], e, f);
      assert Upsert(entries, e)[1..] == Upsert(entries[1..], e) && Upsert(entries, f)[1..] == Upsert(entries[1..], f);
    } else if entries != [] {
      assert Upsert(entries, e)[1..] == entries[1..] && Upsert(entries, f)[1..] == entries[1..];
    }
  }

  lemma CommitKeepsConflicts(rules: Rules, m: Memory, p: Proposal)
    requires Inv(rules, m) && rules.minimum >= 0 && Admissible(rules, m.session, EntryOf(p, 0))
    ensures ConflictsFit(rules, ConflictsAfter(m, p))
  {
    hide Sound, ValidText, ValidId, AuditsFit, TextBytes, ConflictsFit;
    var existing := Lookup(m.entries, p.key);
    if existing.Some? && existing.value.value != p.value {
      FoundIsAdmissible(rules, m.session, m.entries, p.key);
      OneMoreConflict(rules, m.conflicts,
                      Conflict(p.key, existing.value.value, p.value, existing.value.confidence, p.confidence));
    }
  }

  lemma CommitKeepsInv(rules: Rules, m: Memory, p: Proposal, now: int, auditedAt: int)
    requires Inv(rules, m) && rules.minimum >= 0 && Rejected(rules, m, p) == None
    ensures Inv(rules, Commit(rules, m, p, now, auditedAt))
  {
    hide Sound, ConflictsFit, AuditsFit, ValidText, ConflictsAfter, TextBytes, Upsert, Lookup;
    AcceptedIsAdmissible(rules, m, p, now);
    AcceptedIsAdmissible(rules, m, p, 0);
    CommitKeepsConflicts(rules, m, p);
    UpsertKeepsSound(rules, m.session, m.entries, EntryOf(p, now));
    UpsertSize(m.entries, EntryOf(p, 0), EntryOf(p, now));
    KeyIsShort(rules, p.key, p.value);
    var existing := Lookup(m.entries, p.key);
    OneMoreAudit(m.revision, m.audit,
                 Audited(rules, m.revision + 1, p.key, existing, Some(EntryOf(p, now)), Some(p.provenance), auditedAt));
  }

  /** What a caller of `delete` is trusted with: ids of at most 256 bytes. */
  predicate ShortIds(op: Operation) {
    op.Deleting? ==>
      && Bytes(op.key) <= MAX_PROVENANCE_BYTES
      && (op.provenance.Some? ==>
            && Bytes(op.provenance.value.trace) <= MAX_PROVENANCE_BYTES
            && Bytes(op.provenance.value.turn) <= MAX_PROVENANCE_BYTES
            && Bytes(op.provenance.value.evidence) <= MAX_PROVENANCE_BYTES)
  }

  lemma StepKeepsInv(rules: Rules, m: Memory, op: Operation)
    requires Inv(rules, m) && rules.minimum >= 0 && ShortIds(op)
    ensures Inv(rules, Step(rules, m, op))
  {
    hide Sound, ConflictsFit, AuditsFit, Commit, Rejected, TextBytes, Lookup;
    match op
    case Reducing(p, now, auditedAt) =>
      if Rejected(rules, m, p) == None {
        CommitKeepsInv(rules, m, p, now, auditedAt);
      }
    case Deleting(key, provenance, now) =>
      RemoveKeepsSound(rules, m.session, m.entries, key);
      FewerConflicts(rules, m.conflicts, key);
      NothingStored();
      OneMoreAudit(m.revision, m.audit,
                   Audited(rules, m.revision + 1, key, Lookup(m.entries, key), None, provenance, now));
    case Clearing => NothingIsSound(rules, m.session, m.revision + 1);
    case SettingRevisions(_, _) =>
  }

  lemma NothingStored()
    ensures Bytes([]) == 0
  {
  }

  lemma NothingIsSound(rules: Rules, session: Text, revision: int)
    ensures Sound(rules, session, []) && TextBytes([]) == 0 && ConflictsFit(rules, []) && AuditsFit(revision, [])
  {
  }

  /** At most 32 entries and 16384 bytes, 16 conflicts, 64 audits, all admissible, in every run. */
  function Run(rules: Rules, m: Memory, ops: seq<Operation>): (t: Memory)
    ensures Inv(rules, m) && rules.minimum >= 0 && (forall i :: 0 <= i < |ops| ==> ShortIds(ops[i])) ==> Inv(rules, t)
    ensures t.session == m.session && t.revision >= m.revision
  {
    hide Inv, ShortIds, Rejected, Commit, Deleted;
    if ops == [] then m
    else
      var before, last := Run(rules, m, ops[..|ops| - 1]), ops[|ops| - 1];
      assert Inv(rules, before) && rules.minimum >= 0 && ShortIds(last) ==> Inv(rules, Step(rules, before, last)) by {
        if Inv(rules, before) && rules.minimum >= 0 && ShortIds(last) { StepKeepsInv(rules, before, last); }
      }
      StepKeepsSession(rules, before, last);
      Step(rules, before, last)
  }

  lemma StepKeepsSession(rules: Rules, m: Memory, op: Operation)
    ensures Step(rules, m, op).session == m.session && Step(rules, m, op).revision >= m.revision
  {
    hide Rejected, Upsert, ConflictsAfter, Last, Remove, ConflictsWithout;
  }

  /**
   * A proposal is accepted exactly when it was made against the current revision, would be admissible as an
   * entry, leaves the memory within capacity, and does not replace a value with no more confidence.
   */
  lemma AcceptedExactly(rules: Rules, m: Memory, p: Proposal, now: int, auditedAt: int)
    ensures Rejected(rules, m, p) == None <==>
            var t, existing := Commit(rules, m, p, now, auditedAt), Lookup(m.entries, p.key);
            && p.baseRevision == m.revision && Admissible(rules, m.session, EntryOf(p, now))
            && |t.entries| <= MAX_ENTRIES && TextBytes(t.entries) <= MAX_TEXT_BYTES
            && (existing.None? || existing.value.value == p.value || p.confidence > existing.value.confidence)
  {
    hide Bytes, TextBytes, Upsert, Lookup, ValidText, ValidId, ConflictsAfter, Audited;
    UpsertSize(m.entries, EntryOf(p, 0), EntryOf(p, now));
  }

  /** An accepted proposal is what its key now holds, and a different value needed strictly more confidence. */
  lemma AcceptedProposalIsStored(rules: Rules, m: Memory, p: Proposal, now: int, auditedAt: int)
    requires Inv(rules, m) && Rejected(rules, m, p) == None
    ensures var t := Commit(rules, m, p, now, auditedAt);
            && Lookup(t.entries, p.key) == Some(EntryOf(p, now))
            && (forall key :: key != p.key ==> Lookup(t.entries, key) == Lookup(m.entries, key))
            && (Lookup(m.entries, p.key).Some? && Lookup(m.entries, p.key).value.value != p.value ==>
                  p.confidence > Lookup(m.entries, p.key).value.confidence && t.conflicts != [])
  {
    hide Sound, ValidText, ValidId, AuditsFit, ConflictsFit, TextBytes;
    AcceptedIsAdmissible(rules, m, p, now);
    UpsertKeepsSound(rules, m.session, m.entries, EntryOf(p, now));
  }

  /** The first entry of a key, or the end. */
  predicate Stands(entries: seq<Entry>, i: nat, key: Text) {
    && i <= |entries| && (i < |entries| ==> entries[i].key == key)
    && forall j :: 0 <= j < i ==> entries[j].key != key
  }

  lemma {:induction false} LookupAt(entries: seq<Entry>, i: nat, key: Text)
    requires Stands(entries, i, key)
    ensures Lookup(entries, key) == if i < |entries| then Some(entries[i]) else None
  {
    if i > 0 {
      LookupAt(entries[1..], i - 1, key);
    }
  }

  lemma {:induction false} UpsertAt(entries: seq<Entry>, i: nat, e: Entry)
    requires Stands(entries, i, e.key)
    ensures Upsert(entries, e) == if i < |entries| then entries[i := e] else entries + [e]
  {
    if i > 0 {
      UpsertAt(entries[1..], i - 1, e);
      assert Upsert(entries, e) == [entries[0]] + Upsert(entries[1..], e);
    } else if entries != [] {
      assert [e] + entries[1..] == entries[0 := e];
    }
  }

  lemma {:induction false} OneMoreCounted(entries: seq<Entry>, i: nat)
    requires i < |entries|
    ensures TextBytes(entries[..i + 1]) == TextBytes(entries[..i]) + Bytes(entries[i].key) + Bytes(entries[i].value)
  {
    hide Bytes;
    if i > 0 {
      OneMoreCounted(entries[1..], i - 1);
      assert entries[..i + 1][1..] == entries[1..][..i] && entries[..i][1..] == entries[1..][..i - 1];
    } else {
      assert entries[..1][1..] == [];
    }
  }

  lemma {:induction false} RemovedOneMore(entries: seq<Entry>, i: nat, key: Text)
    requires i < |entries|
    ensures Remove(entries[..i + 1], key) == Remove(entries[..i], key) + if entries[i].key == key then [] else [entries[i]]
  {
    if i > 0 {
      RemovedOneMore(entries[1..], i - 1, key);
      assert entries[..i + 1][1..] == entries[1..][..i] && entries[..i][1..] == entries[1..][..i - 1];
    } else {
      assert entries[..1][1..] == [];
    }
  }

  lemma {:induction false} ConflictsOneMore(conflicts: seq<Conflict>, i: nat, key: Text)
    requires i < |conflicts|
    ensures ConflictsWithout(conflicts[..i + 1], key)
         == ConflictsWithout(conflicts[..i], key) + if conflicts[i].key == key then [] else [conflicts[i]]
  {
    if i > 0 {
      ConflictsOneMore(conflicts[1..], i - 1, key);
      assert conflicts[..i + 1][1..] == conflicts[1..][..i] && conflicts[..i][1..] == conflicts[1..][..i - 1];
    } else {
      assert conflicts[..1][1..] == [];
    }
  }

  lemma NothingToRemove(key: Text)
    ensures Remove([], key) == [] && ConflictsWithout([], key) == []
  {
  }

  /** Where a key stands in the dictionary, or its size. */
  method IndexOf(entries: seq<Entry>, key: Text) returns (i: nat)
    ensures Stands(entries, i, key)
  {
    i := 0;
    while i < |entries| && entries[i].key != key
      invariant i <= |entries| && forall j :: 0 <= j < i ==> entries[j].key != key
    {
      i := i + 1;
    }
  }

  method CountBytes(entries: seq<Entry>) returns (total: nat)
    ensures total == TextBytes(entries)
  {
    hide Bytes;
    total := 0;
    for i := 0 to |entries|
      invariant total == TextBytes(entries[..i])
    {
      OneMoreCounted(entries, i);
      total := total + Bytes(entries[i].key) + Bytes(entries[i].value);
    }
    assert entries[..|entries|] == entries;
  }

  class MutableMemory {
    const session: Text
    const rules: Rules
    var revision: nat
    var entries: seq<Entry>
    var conflicts: seq<Conflict>
    var audit: seq<Audit>
    var profileRevision: nat
    var consentRevision: nat

    function Current(): Memory
      reads this
    {
      Memory(session, revision, entries, conflicts, audit, profileRevision, consentRevision)
    }

    constructor (session: Text, rules: Rules)
      ensures Current() == Memory(session, 0, [], [], [], 0, 0) && this.rules == rules && Inv(rules, Current())
    {
      this.session, this.rules, revision, profileRevision, consentRevision := session, rules, 0, 0, 0;
      entries, conflicts, audit := [], [], [];
    }

    /** `_content_rejection` */
    method ValidateContent(p: Proposal) returns (rejection: Option<Rejection>)
      ensures rejection == None <==> Admissible(rules, p.provenance.session, EntryOf(p, 0))
      ensures p.baseRevision == revision && p.provenance.session == session && rejection != None ==>
                rejection == Rejected(rules, Current(), p)
    {
      hide ValidText, Bytes;
      if p.category != OrdinaryPreference {
        return Some(RestrictedCategory);
      }
      if rules.sensitive(p.key, p.value) {
        return Some(RestrictedCategory);
      }
      if !ValidText(rules, p.key, p.value) {
        return Some(InvalidFormat);
      }
      var ids := [p.provenance.trace, p.provenance.turn, p.provenance.evidence];
      for i := 0 to |ids|
        invariant forall j :: 0 <= j < i ==> ValidId(ids[j])
      {
        if ids[i] == [] || Bytes(ids[i]) > MAX_PROVENANCE_BYTES {
          assert !ValidId(ids[i]);
          return Some(InvalidFormat);
        }
      }
      assert ValidId(ids[0]) && ValidId(ids[1]) && ValidId(ids[2]);
      if !(rules.minimum <= p.confidence <= MAX_CONFIDENCE) {
        return Some(UnsupportedAssertion);
      }
      return None;
    }

    /** `validate`: reads the memory and changes nothing. */
    method Validate(p: Proposal) returns (rejection: Option<Rejection>)
      ensures rejection == Rejected(rules, Current(), p)
    {
      hide ValidText, ValidId, Bytes, TextBytes, Upsert, Lookup, Stands;
      if p.baseRevision != revision {
        return Some(StaleProposal);
      }
      if p.provenance.session != session {
        return Some(SessionMismatch);
      }
      rejection := ValidateContent(p);
      if rejection != None {
        return;
      }
      var i := IndexOf(entries, p.key);
      LookupAt(entries, i, p.key);
      UpsertAt(entries, i, EntryOf(p, 0));
      var projected := if i < |entries| then entries[i := EntryOf(p, 0)] else entries + [EntryOf(p, 0)];
      var total := CountBytes(projected);
      if |projected| > MAX_ENTRIES || total > MAX_TEXT_BYTES {
        return Some(CapacityExceeded);
      }
      if i < |entries| && entries[i].value != p.value && p.confidence <= entries[i].confidence {
        return Some(ConflictingValue);
      }
      return None;
    }

    method Reduce(p: Proposal, now: int, auditedAt: int) returns (rejection: Option<Rejection>)
      requires Inv(rules, Current()) && rules.minimum >= 0
      modifies this
      ensures Current() == Step(rules, old(Current()), Reducing(p, now, auditedAt)) && Inv(rules, Current())
      ensures rejection == Rejected(rules, old(Current()), p)
    {
      hide Inv, Rejected, Upsert, Lookup, Stands, Last, Audited;
      StepKeepsInv(rules, Current(), Reducing(p, now, auditedAt));
      rejection := Validate(p);
      if rejection != None {
        return;
      }
      var i := IndexOf(entries, p.key);
      LookupAt(entries, i, p.key);
      var existing := if i < |entries| then Some(entries[i]) else None;
      revision := revision + 1;
      if existing.Some? && existing.value.value != p.value {
        conflicts := conflicts
          + [Conflict(p.key, existing.value.value, p.value, existing.value.confidence, p.confidence)];
        conflicts := Last(conflicts, MAX_CONFLICTS);
      }
      var entry := EntryOf(p, now);
      UpsertAt(entries, i, entry);
      entries := if i < |entries| then entries[i := entry] else entries + [entry];
      AppendAudit(p.key, existing, Some(entry), Some(p.provenance), auditedAt);
    }

    method Delete(key: Text, provenance: Option<Provenance>, now: int)
      requires Inv(rules, Current()) && rules.minimum >= 0 && ShortIds(Deleting(key, provenance, now))
      modifies this
      ensures Current() == Step(rules, old(Current()), Deleting(key, provenance, now)) && Inv(rules, Current())
    {
      hide Inv, Remove, Lookup, ConflictsWithout, Audited, Last;
      StepKeepsInv(rules, Current(), Deleting(key, provenance, now));
      var previous := Get(key);
      Pop(key);
      revision := revision + 1;
      ForgetConflicts(key);
      AppendAudit(key, previous, None, provenance, now);
    }

    method Get(key: Text) returns (existing: Option<Entry>)
      ensures existing == Lookup(entries, key)
    {
      hide Lookup;
      var i := IndexOf(entries, key);
      LookupAt(entries, i, key);
      existing := if i < |entries| then Some(entries[i]) else None;
    }

    method Pop(key: Text)
      modifies `entries
      ensures entries == Remove(old(entries), key)
    {
      hide Remove;
      var before, kept := entries, [];
      assert Remove([], key) == [] by { NothingToRemove(key); }
      for i := 0 to |before|
        invariant kept == Remove(before[..i], key)
      {
        RemovedOneMore(before, i, key);
        if before[i].key != key {
          kept := kept + [before[i]];
        }
      }
      assert before[..|before|] == before;
      entries := kept;
    }

    method ForgetConflicts(key: Text)
      modifies `conflicts
      ensures conflicts == ConflictsWithout(old(conflicts), key)
    {
      hide ConflictsWithout;
      var before, kept := conflicts, [];
      assert ConflictsWithout([], key) == [] by { NothingToRemove(key); }
      for i := 0 to |before|
        invariant kept == ConflictsWithout(before[..i], key)
      {
        ConflictsOneMore(before, i, key);
        if before[i].key != key {
          kept := kept + [before[i]];
        }
      }
      assert before[..|before|] == before;
      conflicts := kept;
    }

    method Clear()
      requires Inv(rules, Current()) && rules.minimum >= 0
      modifies this
      ensures Current() == Step(rules, old(Current()), Clearing) && Inv(rules, Current())
    {
      hide Inv;
      StepKeepsInv(rules, Current(), Clearing);
      entries, conflicts, audit, revision := [], [], [], revision + 1;
    }

    method AppendAudit(
      key: Text, previous: Option<Entry>, current: Option<Entry>, provenance: Option<Provenance>, now: int)
      modifies `audit
      ensures audit
           == Last(old(audit) + [Audited(rules, revision, key, previous, current, provenance, now)], MAX_AUDITS)
    {
      audit := audit + [Audited(rules, revision, key, previous, current, provenance, now)];
      audit := Last(audit, MAX_AUDITS);
    }
  }
}
