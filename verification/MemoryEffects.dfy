/** src/orchestrator/memory.py: what each operation leaves in the memory, and what a key holds after any run. */
module MemoryEffects {
  import opened Common
  import opened Utf8
  import opened Memories

  /** The bounded trail with one more record at its end. */
  predicate OneMore<T(==)>(before: seq<T>, after: seq<T>, last: T, bound: nat) {
    && after != [] && after[|after| - 1] == last
    && after[..|after| - 1] == (if |before| >= bound > 0 then before[|before| - bound + 1..] else before)
  }

  lemma LastIsOneMore<T>(before: seq<T>, last: T, bound: nat)
    requires 0 < bound && |before| <= bound
    ensures OneMore(before, Last(before + [last], bound), last, bound)
  {
    var all := before + [last];
    if |all| > bound {
      assert all[|all| - bound..] == before[|before| - bound + 1..] + [last];
    }
  }

  function DigestOf(rules: Rules, entry: Option<Entry>): Text {
    if entry.Some? then rules.digest(entry.value.value) else []
  }

  lemma {:induction false} RemovedAt(entries: seq<Entry>, i: nat, key: Text)
    requires Stands(entries, i, key) && forall j :: i < j < |entries| ==> entries[j].key != key
    ensures Remove(entries, key) == if i < |entries| then entries[..i] + entries[i + 1..] else entries
    decreases |entries|
  {
    if entries != [] {
      if i > 0 {
        RemovedAt(entries[1..], i - 1, key);
        if i < |entries| {
          assert [entries[0]] + (entries[1..][..i - 1] + entries[1..][i..]) == entries[..i] + entries[i + 1..];
        }
      } else {
        NothingRemoved(entries[1..], key);
      }
    }
  }

  lemma {:induction false} NothingRemoved(entries: seq<Entry>, key: Text)
    requires forall j :: 0 <= j < |entries| ==> entries[j].key != key
    ensures Remove(entries, key) == entries
  {
    if entries != [] {
      NothingRemoved(entries[1..], key);
    }
  }

  lemma {:induction false} KeysAreDistinct(rules: Rules, session: Text, entries: seq<Entry>, i: nat, j: nat)
    requires Sound(rules, session, entries) && i < j < |entries|
    ensures entries[i].key != entries[j].key
  {
    hide Admissible;
    if i == 0 {
      LookupFinds(entries[1..], j - 1);
    } else {
      KeysAreDistinct(rules, session, entries[1..], i - 1, j - 1);
    }
  }

  lemma {:induction false} LookupFinds(entries: seq<Entry>, j: nat)
    requires j < |entries|
    ensures Lookup(entries, entries[j].key).Some?
  {
    if entries[0].key != entries[j].key {
      LookupFinds(entries[1..], j - 1);
    }
  }

  lemma {:induction false} ForgottenExactly(conflicts: seq<Conflict>, key: Text)
    ensures forall c :: c in ConflictsWithout(conflicts, key) <==> c in conflicts && c.key != key
  {
    if conflicts != [] {
      ForgottenExactly(conflicts[1..], key);
      assert conflicts == [conflicts[0]] + conflicts[1..];
    }
  }

  lemma InvBoundsTrails(rules: Rules, m: Memory)
    requires Inv(rules, m)
    ensures |m.audit| <= 64 && |m.conflicts| <= 16
  {
  }

  lemma DeletedEntry(rules: Rules, m: Memory, key: Text, i: nat)
    requires Inv(rules, m) && Stands(m.entries, i, key)
    ensures Remove(m.entries, key) == if i < |m.entries| then m.entries[..i] + m.entries[i + 1..] else m.entries
    ensures forall k :: Lookup(Remove(m.entries, key), k) == if k == key then None else Lookup(m.entries, k)
  {
    hide Remove, Lookup, ConflictsFit, AuditsFit;
    forall j | i < j < |m.entries| ensures m.entries[j].key != key {
      KeysAreDistinct(rules, m.session, m.entries, i, j);
    }
    RemovedAt(m.entries, i, key);
    RemoveKeepsSound(rules, m.session, m.entries, key);
  }

  /**
   * Deleting a key removes its entry and no other, each of which keeps its place; no conflict of the key
   * remains and no other goes; the trail ends with the deletion and the digest of what was removed.
   */
  lemma DeletingDoes(rules: Rules, m: Memory, key: Text, provenance: Option<Provenance>, now: int, i: nat)
    requires Inv(rules, m) && Stands(m.entries, i, key)
    ensures var t := Step(rules, m, Deleting(key, provenance, now));
            var removed := if i < |m.entries| then Some(m.entries[i]) else None;
            && t.entries == (if i < |m.entries| then m.entries[..i] + m.entries[i + 1..] else m.entries)
            && Lookup(t.entries, key) == None
            && (forall other :: other != key ==> Lookup(t.entries, other) == Lookup(m.entries, other))
            && (forall c :: c in t.conflicts <==> c in m.conflicts && c.key != key)
            && OneMore(m.audit, t.audit,
                       Audit(m.revision + 1, Delete, key, DigestOf(rules, removed), [],
                             if provenance.Some? then provenance.value.trace else [],
                             if provenance.Some? then provenance.value.turn else [],
                             if provenance.Some? then provenance.value.evidence else [], now), 64)
            && t == m.(entries := t.entries, conflicts := t.conflicts, audit := t.audit, revision := m.revision + 1)
  {
    InvBoundsTrails(rules, m);
    DeletedEntry(rules, m, key, i);
    hide Inv, Remove, Lookup, ConflictsWithout, Last, OneMore, Stands;
    LookupAt(m.entries, i, key);
    ForgottenExactly(m.conflicts, key);
    LastIsOneMore(m.audit, Audited(rules, m.revision + 1, key, Lookup(m.entries, key), None, provenance, now), 64);
  }

  /** Clearing leaves nothing but a later revision. */
  lemma ClearingDoes(rules: Rules, m: Memory)
    ensures var t := Step(rules, m, Clearing);
            && t.entries == [] && t.conflicts == [] && t.audit == [] && t.revision == m.revision + 1
            && (forall key :: Lookup(t.entries, key) == None)
            && t.session == m.session && t.profileRevision == m.profileRevision && t.consentRevision == m.consentRevision
  {
  }

  /**
   * An accepted proposal takes the place its key has, or the end; it is recorded as an addition or a
   * replacement, and as a conflict if it replaced another value. A rejected one changes nothing.
   */
  lemma ReducingDoes(rules: Rules, m: Memory, p: Proposal, now: int, auditedAt: int, i: nat)
    requires Inv(rules, m) && Stands(m.entries, i, p.key)
    ensures var t := Step(rules, m, Reducing(p, now, auditedAt));
            var entry := Entry(p.key, p.value, p.provenance, p.category, p.confidence, now);
            var existing := if i < |m.entries| then Some(m.entries[i]) else None;
            if Rejected(rules, m, p) != None then t == m else
            && t.entries == (if i < |m.entries| then m.entries[i := entry] else m.entries + [entry])
            && OneMore(m.audit, t.audit,
                       Audit(m.revision + 1, if existing.Some? then Replace else Add, p.key,
                             DigestOf(rules, existing), rules.digest(p.value),
                             p.provenance.trace, p.provenance.turn, p.provenance.evidence, auditedAt), 64)
            && (if existing.Some? && existing.value.value != p.value
                then OneMore(m.conflicts, t.conflicts,
                             Conflict(p.key, existing.value.value, p.value, existing.value.confidence, p.confidence), 16)
                else t.conflicts == m.conflicts)
            && t == m.(entries := t.entries, conflicts := t.conflicts, audit := t.audit, revision := m.revision + 1)
  {
    LookupAt(m.entries, i, p.key);
    UpsertAt(m.entries, i, EntryOf(p, now));
    ConflictTrail(rules, m, p);
    AuditTrail(rules, m, p, now, auditedAt);
    hide Inv, Upsert, Lookup, Last, OneMore, Stands, Rejected, ConflictsAfter, Audited;
  }

  lemma ConflictTrail(rules: Rules, m: Memory, p: Proposal)
    requires Inv(rules, m)
    ensures var existing := Lookup(m.entries, p.key);
            if existing.Some? && existing.value.value != p.value
            then OneMore(m.conflicts, ConflictsAfter(m, p),
                         Conflict(p.key, existing.value.value, p.value, existing.value.confidence, p.confidence), 16)
            else ConflictsAfter(m, p) == m.conflicts
  {
    InvBoundsTrails(rules, m);
    hide Inv, Lookup, Last, OneMore;
    var existing := Lookup(m.entries, p.key);
    if existing.Some? {
      LastIsOneMore(m.conflicts, Conflict(p.key, existing.value.value, p.value, existing.value.confidence, p.confidence), 16);
    }
  }

  lemma AuditTrail(rules: Rules, m: Memory, p: Proposal, now: int, auditedAt: int)
    requires Inv(rules, m)
    ensures var existing := Lookup(m.entries, p.key);
            OneMore(m.audit, Commit(rules, m, p, now, auditedAt).audit,
                    Audit(m.revision + 1, if existing.Some? then Replace else Add, p.key,
                          DigestOf(rules, existing), rules.digest(p.value),
                          p.provenance.trace, p.provenance.turn, p.provenance.evidence, auditedAt), 64)
  {
    InvBoundsTrails(rules, m);
    hide Inv, Lookup, Last, OneMore, ConflictsAfter, Upsert;
    var existing := Lookup(m.entries, p.key);
    LastIsOneMore(m.audit, Audited(rules, m.revision + 1, p.key, existing, Some(EntryOf(p, now)), Some(p.provenance), auditedAt), 64);
  }

  /** What a key holds after a run: what the last operation that touched it left there. */
  function Holds(rules: Rules, m: Memory, ops: seq<Operation>, key: Text): Option<Entry> {
    if ops == [] then Lookup(m.entries, key)
    else
      var before, last := Run(rules, m, ops[..|ops| - 1]), ops[|ops| - 1];
      match last
      case Reducing(p, now, _) =>
        if p.key == key && Rejected(rules, before, p) == None
        then Some(Entry(p.key, p.value, p.provenance, p.category, p.confidence, now))
        else Holds(rules, m, ops[..|ops| - 1], key)
      case Deleting(deleted, _, _) => if deleted == key then None else Holds(rules, m, ops[..|ops| - 1], key)
      case Clearing => None
      case SettingRevisions(_, _) => Holds(rules, m, ops[..|ops| - 1], key)
  }

  lemma StepWrites(rules: Rules, m: Memory, op: Operation, key: Text)
    requires Inv(rules, m)
    ensures Lookup(Step(rules, m, op).entries, key) ==
            match op
            case Reducing(p, now, _) =>
              if p.key == key && Rejected(rules, m, p) == None
              then Some(Entry(p.key, p.value, p.provenance, p.category, p.confidence, now)) else Lookup(m.entries, key)
            case Deleting(deleted, _, _) => if deleted == key then None else Lookup(m.entries, key)
            case Clearing => None
            case SettingRevisions(_, _) => Lookup(m.entries, key)
  {
    hide Sound, ConflictsFit, AuditsFit, TextBytes, Upsert, Remove, Rejected, ConflictsAfter, ConflictsWithout, Audited, Last;
    match op
    case Reducing(p, now, auditedAt) =>
      if Rejected(rules, m, p) == None {
        AcceptedIsAdmissible(rules, m, p, now);
        UpsertKeepsSound(rules, m.session, m.entries, EntryOf(p, now));
      }
    case Deleting(deleted, provenance, now) => RemoveKeepsSound(rules, m.session, m.entries, deleted);
    case Clearing =>
    case SettingRevisions(_, _) =>
  }

  /**
   * Every run: a key holds the last accepted proposal for it since its last deletion and the last clearing.
   * So a deleted key stays absent until the next accepted proposal for it.
   */
  lemma {:induction false} KeysHoldTheLastWrite(rules: Rules, m: Memory, ops: seq<Operation>, key: Text)
    requires Inv(rules, m) && rules.minimum >= 0 && forall i :: 0 <= i < |ops| ==> ShortIds(ops[i])
    ensures Lookup(Run(rules, m, ops).entries, key) == Holds(rules, m, ops, key)
    decreases |ops|
  {
    hide Inv, Lookup, Step, Rejected, ShortIds;
    if ops != [] {
      var front := ops[..|ops| - 1];
      KeysHoldTheLastWrite(rules, m, front, key);
      StepWrites(rules, Run(rules, m, front), ops[|ops| - 1], key);
    }
  }

  lemma {:induction false} BytesAfterAssigning(entries: seq<Entry>, i: nat, e: Entry)
    requires Stands(entries, i, e.key)
    ensures TextBytes(Upsert(entries, e)) == TextBytes(entries)
              + (if i < |entries| then Bytes(e.value) - Bytes(entries[i].value) else Bytes(e.key) + Bytes(e.value))
    ensures |Upsert(entries, e)| == if i < |entries| then |entries| else |entries| + 1
  {
    hide Bytes;
    if i > 0 {
      BytesAfterAssigning(entries[1..], i - 1, e);
      assert Upsert(entries, e)[1..] == Upsert(entries[1..], e);
    } else if entries != [] {
      assert Upsert(entries, e)[1..] == entries[1..];
    }
  }

  /** An id that does not name anything, or takes more than 256 bytes. */
  predicate BadId(id: Text) {
    id == [] || |Encode(id)| > 256
  }

  /** Which rejection a proposal gets: the first of these that applies; none of them, and it is accepted. */
  lemma RejectionsAreExact(rules: Rules, m: Memory, p: Proposal, i: nat)
    requires Stands(m.entries, i, p.key)
    ensures var known := i < |m.entries|;
            var keys := |m.entries| + if known then 0 else 1;
            var bytes := TextBytes(m.entries)
                         + if known then |Encode(p.value)| - |Encode(m.entries[i].value)| else |Encode(p.key)| + |Encode(p.value)|;
            Rejected(rules, m, p) ==
            if p.baseRevision != m.revision then Some(StaleProposal)
            else if p.provenance.session != m.session then Some(SessionMismatch)
            else if p.category != OrdinaryPreference || rules.sensitive(p.key, p.value) then Some(RestrictedCategory)
            else if |p.key| > 128 || !IsKey(p.key) || p.value == [] || |p.value| > 512 || Strip(p.value) != p.value
                    || (exists c <- p.value :: rules.control(c) || c == 0x3C || c == 0x3E)
                    || BadId(p.provenance.trace) || BadId(p.provenance.turn) || BadId(p.provenance.evidence)
            then Some(InvalidFormat)
            else if p.confidence < rules.minimum || p.confidence > 100 then Some(UnsupportedAssertion)
            else if keys > 32 || bytes > 16_384 then Some(CapacityExceeded)
            else if known && m.entries[i].value != p.value && p.confidence <= m.entries[i].confidence then Some(ConflictingValue)
            else None
  {
    BytesAfterAssigning(m.entries, i, EntryOf(p, 0));
    LookupAt(m.entries, i, p.key);
    hide TextBytes, Upsert, Lookup, Stands, IsKey, Strip, Encode;
    TextIsValidExactly(rules, p.key, p.value);
    hide ValidText;
  }

  lemma TextIsValidExactly(rules: Rules, key: Text, value: Text)
    ensures ValidText(rules, key, value) <==>
            && |key| <= 128 && IsKey(key) && value != [] && |value| <= 512 && Strip(value) == value
            && !(exists c <- value :: rules.control(c) || c == 0x3C || c == 0x3E)
  {
    hide IsKey, Strip;
    if ValidText(rules, key, value) {
      forall c <- value ensures !rules.control(c) && c != 0x3C && c != 0x3E {
        var j :| 0 <= j < |value| && value[j] == c;
      }
    }
    forall j | 0 <= j < |value| ensures value[j] in value { }
  }

  /** What the invariant of every run bounds. */
  lemma MemoriesAreBounded(rules: Rules, m: Memory)
    requires Inv(rules, m)
    ensures |m.entries| <= 32 && TextBytes(m.entries) <= 16_384 && |m.conflicts| <= 16 && |m.audit| <= 64
    ensures forall i :: 0 <= i < |m.audit| ==> 0 < m.audit[i].revision <= m.revision
  {
    hide Sound, TextBytes, Bytes;
    forall i | 0 <= i < |m.audit| ensures AuditFits(m.revision, m.audit[i]) { }
  }

  predicate IsWord(word: Text) {
    word != [] && forall i :: 0 <= i < |word| ==> 0x61 <= word[i] <= 0x7A || 0x30 <= word[i] <= 0x39
  }

  /** Words joined by single underscores. */
  function Underscored(words: seq<Text>): Text {
    if words == [] then [] else if |words| == 1 then words[0] else words[0] + ([0x5F] + Underscored(words[1..]))
  }

  ghost predicate AllWords(words: seq<Text>) {
    words != [] && forall i :: 0 <= i < |words| ==> IsWord(words[i])
  }

  /** The shape of a key without its first letter's rule. */
  predicate Joined(text: Text) {
    && text != [] && text[0] != 0x5F && text[|text| - 1] != 0x5F
    && (forall i :: 0 <= i < |text| ==> IsKeyChar(text[i]))
    && (forall i :: 0 < i < |text| ==> text[i - 1] != 0x5F || text[i] != 0x5F)
  }

  lemma {:induction false} WordsAreJoined(words: seq<Text>)
    requires AllWords(words)
    ensures Joined(Underscored(words)) && Underscored(words)[0] == words[0][0]
  {
    assert IsWord(words[0]);
    if |words| > 1 {
      var rest := words[1..];
      forall i | 0 <= i < |rest| ensures IsWord(rest[i]) { assert rest[i] == words[i + 1]; }
      WordsAreJoined(rest);
      WordThenWords(words[0], Underscored(rest));
    } else {
      WordAlone(words[0]);
    }
  }

  lemma WordAlone(word: Text)
    requires IsWord(word)
    ensures Joined(word)
  {
  }

  lemma WordThenWords(word: Text, rest: Text)
    requires IsWord(word) && Joined(rest)
    ensures Joined(word + ([0x5F] + rest))
  {
    var all, n := word + ([0x5F] + rest), |word|;
    forall i | 0 <= i < |all| ensures all[i] == if i < n then word[i] else if i == n then 0x5F else rest[i - n - 1] { }
  }

  lemma {:induction false} JoinedAreWords(text: Text) returns (words: seq<Text>)
    requires Joined(text)
    ensures AllWords(words) && Underscored(words) == text
    decreases |text|
  {
    var i := FirstUnderscore(text);
    FrontIsAWord(text);
    if i == |text| {
      words := [text];
      assert text[..i] == text;
    } else {
      BehindTheUnderscore(text, i);
      hide Joined, IsWord, FirstUnderscore;
      words := JoinedAreWords(text[i + 1..]);
      OneMoreWord(text[..i], words);
      words := [text[..i]] + words;
      assert text == text[..i] + ([0x5F] + text[i + 1..]);
    }
  }

  lemma FrontIsAWord(text: Text)
    requires Joined(text)
    ensures IsWord(text[..FirstUnderscore(text)])
  {
    var front := text[..FirstUnderscore(text)];
    forall j | 0 <= j < |front| ensures IsKeyChar(front[j]) && front[j] != 0x5F { assert front[j] == text[j]; }
  }

  lemma OneMoreWord(word: Text, words: seq<Text>)
    requires IsWord(word) && AllWords(words)
    ensures AllWords([word] + words) && Underscored([word] + words) == word + ([0x5F] + Underscored(words))
  {
    hide IsWord;
    assert ([word] + words)[1..] == words;
  }

  function FirstUnderscore(text: Text): (i: nat)
    ensures i <= |text| && (i < |text| ==> text[i] == 0x5F) && forall j :: 0 <= j < i ==> text[j] != 0x5F
  {
    if text == [] || text[0] == 0x5F then 0 else 1 + FirstUnderscore(text[1..])
  }

  lemma BehindTheUnderscore(text: Text, i: nat)
    requires Joined(text) && i < |text| && text[i] == 0x5F
    ensures i + 1 < |text| && Joined(text[i + 1..]) && i > 0
  {
    var rest := text[i + 1..];
    forall j | 0 <= j < |rest| ensures rest[j] == text[i + 1 + j] { }
  }

  /** A key is lower-case words joined by single underscores, the first of which starts with a letter. */
  lemma KeysAreWords(key: Text)
    ensures IsKey(key) <==> exists words :: AllWords(words) && Underscored(words) == key && 0x61 <= words[0][0] <= 0x7A
  {
    if IsKey(key) {
      var words := JoinedAreWords(key);
      WordsAreJoined(words);
      assert IsWord(words[0]);
    }
    forall words | AllWords(words) && Underscored(words) == key && IsWord(words[0]) && 0x61 <= words[0][0] <= 0x7A ensures IsKey(key) {
      WordsAreJoined(words);
    }
  }
}
