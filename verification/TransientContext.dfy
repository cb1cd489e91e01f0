/** src/orchestrator/transient_context.py: the session's context, its composition under a byte budget, its compaction. */
module TransientContexts {
  import opened Common
  import opened Utf8

  const MAX_SUMMARY_CHARS := 4000

  type Session(==, !new)

  /** Turn, segment, sequence and source of a piece of material; never inspected here. */
  type Origin(==, !new)

  datatype Kind = Input | Output | Observation

  datatype Entry = Entry(kind: Kind, session: Session, origin: Origin, text: Text)

  datatype Material =
    | Finalized(session: Session, origin: Origin, text: Text)
    | Accepted(session: Session, origin: Origin, text: Text)
    | Observed(session: Session, origin: Origin, text: Text)
    | Ephemeral(session: Session, origin: Origin, text: Text)

  datatype Snapshot = Snapshot(session: Session, generation: nat, entries: seq<Entry>, summary: Text)

  /** Which entries a digest stands for; its content hash is a function of them. */
  datatype Digest = Digest(compacted: seq<Entry>)

  datatype Composition = Composition(
    snapshot: Snapshot, entries: seq<Entry>, digests: seq<Digest>, tokens: nat, summary: Text)

  function Tokens(text: Text): nat {
    |Encode(text)|
  }

  function ContentTokens(entries: seq<Entry>): nat {
    if entries == [] then 0 else ContentTokens(entries[..|entries| - 1]) + Tokens(entries[|entries| - 1].text)
  }

  /** The entries at the indexes of `kept`, or at those outside it, in order. */
  function Pick(entries: seq<Entry>, kept: set<nat>, inside: bool): seq<Entry> {
    if entries == [] then []
    else
      var n := |entries| - 1;
      Pick(entries[..n], kept, inside) + if (n in kept) == inside then [entries[n]] else []
  }

  function Costs(entries: seq<Entry>): (costs: seq<nat>)
    ensures |costs| == |entries|
  {
    seq(|entries|, i requires 0 <= i < |entries| => Tokens(entries[i].text))
  }

  /** The cost of what is kept at `from` and behind it. */
  function KeptCost(costs: seq<nat>, kept: set<nat>, from: nat): nat
    requires from <= |costs|
    decreases |costs| - from
  {
    if from == |costs| then 0 else (if from in kept then costs[from] else 0) + KeptCost(costs, kept, from + 1)
  }

  predicate FitsBesideNewer(costs: seq<nat>, kept: set<nat>, budget: nat, i: nat)
    requires i < |costs|
  {
    costs[i] + KeptCost(costs, kept, i + 1) <= budget
  }

  /** Newest first: an entry is kept exactly when it fits beside the newer ones that are kept. */
  ghost predicate NewestThatFit(costs: seq<nat>, kept: set<nat>, budget: nat) {
    && (forall i <- kept :: i < |costs|)
    && forall i :: 0 <= i < |costs| ==> (i in kept <==> FitsBesideNewer(costs, kept, budget, i))
  }

  lemma {:induction false} KeptAlike(costs: seq<nat>, a: set<nat>, b: set<nat>, from: nat)
    requires from <= |costs| && forall i :: from <= i < |costs| ==> (i in a <==> i in b)
    ensures KeptCost(costs, a, from) == KeptCost(costs, b, from)
    decreases |costs| - from
  {
    if from < |costs| {
      KeptAlike(costs, a, b, from + 1);
    }
  }

  /** There is one such set, so the rule determines the composition. */
  lemma NewestThatFitIsUnique(costs: seq<nat>, a: set<nat>, b: set<nat>, budget: nat)
    requires NewestThatFit(costs, a, budget) && NewestThatFit(costs, b, budget)
    ensures a == b
  {
    SameFrom(costs, a, b, budget, 0);
    assert forall i: nat :: i in a ==> i < |costs| && i in b;
    assert forall i: nat :: i in b ==> i < |costs| && i in a;
  }

  lemma {:induction false} SameFrom(costs: seq<nat>, a: set<nat>, b: set<nat>, budget: nat, from: nat)
    requires NewestThatFit(costs, a, budget) && NewestThatFit(costs, b, budget) && from <= |costs|
    ensures forall i :: from <= i < |costs| ==> (i in a <==> i in b)
    decreases |costs| - from
  {
    hide FitsBesideNewer;
    if from < |costs| {
      SameFrom(costs, a, b, budget, from + 1);
      FitsAlike(costs, a, b, budget, from);
    }
  }

  lemma FitsAlike(costs: seq<nat>, a: set<nat>, b: set<nat>, budget: nat, i: nat)
    requires i < |costs| && forall j :: i < j < |costs| ==> (j in a <==> j in b)
    ensures FitsBesideNewer(costs, a, budget, i) == FitsBesideNewer(costs, b, budget, i)
  {
    KeptAlike(costs, a, b, i + 1);
  }

  /** `_retain_newest_entry_indexes`, with the unit that the digest costs already taken off the budget. */
  method RetainNewest(costs: seq<nat>, budget: nat) returns (kept: set<nat>)
    ensures NewestThatFit(costs, kept, budget) && KeptCost(costs, kept, 0) <= budget
  {
    hide FitsBesideNewer;
    kept := {};
    var remaining: nat, index: nat := budget, |costs|;
    while index > 0
      invariant index <= |costs| && forall i <- kept :: index <= i < |costs|
      invariant forall i :: index <= i < |costs| ==> (i in kept <==> FitsBesideNewer(costs, kept, budget, i))
      invariant remaining == budget - KeptCost(costs, kept, index)
    {
      index := index - 1;
      ghost var before := kept;
      Remaining(costs, kept, budget, index);
      if costs[index] <= remaining {
        kept, remaining := kept + {index}, remaining - costs[index];
      }
      KeptAlike(costs, before, kept, index + 1);
      forall i | index <= i < |costs| ensures FitsBesideNewer(costs, kept, budget, i) == FitsBesideNewer(costs, before, budget, i) {
        FitsAlike(costs, kept, before, budget, i);
      }
    }
  }

  lemma Remaining(costs: seq<nat>, kept: set<nat>, budget: nat, i: nat)
    requires i < |costs|
    ensures FitsBesideNewer(costs, kept, budget, i) <==> costs[i] <= budget - KeptCost(costs, kept, i + 1)
  {
  }

  lemma OneMoreEntry(entries: seq<Entry>, entry: Entry)
    ensures ContentTokens(entries + [entry]) == ContentTokens(entries) + Tokens(entry.text)
  {
    assert (entries + [entry])[..|entries|] == entries;
  }

  lemma {:induction false} KeptMeasured(entries: seq<Entry>, kept: set<nat>, n: nat)
    requires n <= |entries|
    ensures KeptCost(Costs(entries), kept, 0) == ContentTokens(Pick(entries[..n], kept, true)) + KeptCost(Costs(entries), kept, n)
  {
    hide Tokens, ContentTokens;
    if n > 0 {
      KeptMeasured(entries, kept, n - 1);
      assert entries[..n][..n - 1] == entries[..n - 1];
      OneMoreEntry(Pick(entries[..n - 1], kept, true), entries[n - 1]);
      var costs, last := Costs(entries), entries[n - 1];
      assert costs[n - 1] == Tokens(last.text);
      assert KeptCost(costs, kept, n - 1) == (if n - 1 in kept then Tokens(last.text) else 0) + KeptCost(costs, kept, n);
      assert Pick(entries[..n - 1], kept, true) + [] == Pick(entries[..n - 1], kept, true);
      assert Pick(entries[..n], kept, true)
          == Pick(entries[..n - 1], kept, true) + if n - 1 in kept then [last] else [];
    } else {
      assert ContentTokens([]) == 0 by { NoTokens(); }
    }
  }

  lemma NoTokens()
    ensures ContentTokens([]) == 0
  {
  }

  /** `kept` is cut out of the whole from the back, so both parts keep the order. */
  function Weave(n: nat, kept: set<nat>, inside: seq<Entry>, outside: seq<Entry>): seq<Entry>
    decreases n
  {
    if n == 0 then []
    else if n - 1 in kept && inside != [] then
      Weave(n - 1, kept, inside[..|inside| - 1], outside) + [inside[|inside| - 1]]
    else if n - 1 !in kept && outside != [] then
      Weave(n - 1, kept, inside, outside[..|outside| - 1]) + [outside[|outside| - 1]]
    else []
  }

  lemma WeaveOneMore(n: nat, kept: set<nat>, inside: seq<Entry>, outside: seq<Entry>, entry: Entry)
    ensures var more := Weave(n, kept, inside, outside) + [entry];
            if n in kept then Weave(n + 1, kept, inside + [entry], outside) == more
            else Weave(n + 1, kept, inside, outside + [entry]) == more
  {
    assert (inside + [entry])[..|inside|] == inside && (outside + [entry])[..|outside|] == outside;
  }

  lemma PickOneMore(entries: seq<Entry>, kept: set<nat>, inside: bool)
    requires entries != []
    ensures var n := |entries| - 1;
            Pick(entries, kept, inside)
            == if (n in kept) == inside then Pick(entries[..n], kept, inside) + [entries[n]] else Pick(entries[..n], kept, inside)
  {
  }

  /** Retained and compacted entries are an order-preserving partition of the snapshot's. */
  lemma {:induction false} PickPartitions(entries: seq<Entry>, kept: set<nat>)
    ensures Weave(|entries|, kept, Pick(entries, kept, true), Pick(entries, kept, false)) == entries
    ensures |Pick(entries, kept, true)| + |Pick(entries, kept, false)| == |entries|
  {
    if entries != [] {
      var n := |entries| - 1;
      PickPartitions(entries[..n], kept);
      PickOneMore(entries, kept, true);
      PickOneMore(entries, kept, false);
      hide Pick, Weave;
      WeaveOneMore(n, kept, Pick(entries[..n], kept, true), Pick(entries[..n], kept, false), entries[n]);
      assert entries == entries[..n] + [entries[n]];
    }
  }

  lemma {:induction false} OlderCostMore(costs: seq<nat>, kept: set<nat>, from: nat)
    requires from <= |costs|
    ensures KeptCost(costs, kept, from) <= KeptCost(costs, kept, 0)
    decreases from
  {
    if from > 0 {
      OlderCostMore(costs, kept, from - 1);
    }
  }

  /** The longest prefix whose encoding has at most `bytes` bytes. */
  ghost predicate LongestPrefix(text: Text, bytes: nat, prefix: Text) {
    && |prefix| <= |text| && prefix == text[..|prefix|] && Tokens(prefix) <= bytes
    && (|prefix| < |text| ==> Tokens(text[..|prefix| + 1]) > bytes)
  }

  /** `snapshot.summary.encode()[:n].decode("utf-8", errors="ignore")` */
  function Truncated(text: Text, bytes: nat): (prefix: Text)
    ensures LongestPrefix(text, bytes, prefix)
  {
    var encoded := Encode(text);
    var cut := if bytes < |encoded| then encoded[..bytes] else encoded;
    assert LongestPrefix(text, bytes, DecodeIgnoring(cut)) by {
      hide Encode, DecodeIgnoring;
      if bytes < |encoded| {
        var k := DecodeCut(text, bytes);
        assert text[..k] == DecodeIgnoring(cut);
      } else {
        RoundTrip(text);
        assert text[..|text|] == text;
      }
    }
    DecodeIgnoring(cut)
  }

  /** What a composition over the budget has to be; `kept` is determined by the rule. */
  ghost predicate Squeezed(snapshot: Snapshot, budget: nat, c: Composition, kept: set<nat>) {
    && LongestPrefix(snapshot.summary, budget / 2, c.summary)
    && budget >= Tokens(c.summary) + 1
    && NewestThatFit(Costs(snapshot.entries), kept, budget - Tokens(c.summary) - 1)
    && c.entries == Pick(snapshot.entries, kept, true)
    && c.digests == [Digest(Pick(snapshot.entries, kept, false))]
    && c.tokens == ContentTokens(c.entries) + Tokens(c.summary) + 1
    && forall i :: 0 <= i < |snapshot.entries| && i !in kept ==> c.tokens + Costs(snapshot.entries)[i] > budget
  }

  /**
   * `compose_context`; a budget that is not positive is an error. The result is within the budget, and no
   * entry left out fits in what is left of it.
   */
  method Compose(snapshot: Snapshot, budget: int) returns (composition: Option<Composition>, ghost kept: set<nat>)
    ensures composition.None? <==> budget <= 0
    ensures composition.Some? ==>
              var c, total := composition.value, ContentTokens(snapshot.entries) + Tokens(snapshot.summary);
              && c.snapshot == snapshot && c.tokens <= budget
              && if total <= budget then c == Composition(snapshot, snapshot.entries, [], total, snapshot.summary)
                 else Squeezed(snapshot, budget, c, kept)
  {
    hide Tokens, Costs, Pick, LongestPrefix, NewestThatFit;
    kept := {};
    if budget <= 0 {
      return None, kept;
    }
    var total := ContentTokens(snapshot.entries) + Tokens(snapshot.summary);
    if total <= budget {
      return Some(Composition(snapshot, snapshot.entries, [], total, snapshot.summary)), kept;
    }
    var summary := Truncated(snapshot.summary, budget / 2);
    HalfIsLess(snapshot.summary, budget, summary);
    var costs := Costs(snapshot.entries);
    var retained := RetainNewest(costs, budget - Tokens(summary) - 1);
    kept := retained;
    var entries, compacted := Pick(snapshot.entries, retained, true), Pick(snapshot.entries, retained, false);
    KeptMeasured(snapshot.entries, kept, |snapshot.entries|);
    assert snapshot.entries[..|snapshot.entries|] == snapshot.entries;
    var tokens := ContentTokens(entries) + Tokens(summary) + 1;
    forall i | 0 <= i < |costs| && i !in kept ensures tokens + costs[i] > budget {
      DroppedDoesNotFit(costs, kept, budget - Tokens(summary) - 1, i);
    }
    composition := Some(Composition(snapshot, entries, [Digest(compacted)], tokens, summary));
  }

  lemma HalfIsLess(text: Text, budget: nat, prefix: Text)
    requires budget > 0 && LongestPrefix(text, budget / 2, prefix)
    ensures Tokens(prefix) + 1 <= budget
  {
  }

  lemma DroppedDoesNotFit(costs: seq<nat>, kept: set<nat>, budget: nat, i: nat)
    requires NewestThatFit(costs, kept, budget) && i < |costs| && i !in kept
    ensures costs[i] + KeptCost(costs, kept, 0) > budget
  {
    OlderCostMore(costs, kept, i + 1);
  }

  datatype Op =
    | Considering(material: Material)
    | Resetting
    | Compacting(composition: Composition, summary: Text)

  /** `None` is the session mismatch error. */
  function Consider(s: Snapshot, material: Material): Option<Snapshot> {
    if material.session != s.session then None
    else if material.Ephemeral? then Some(s)
    else
      var kind := match material
        case Finalized(_, _, _) => Input
        case Accepted(_, _, _) => Output
        case _ => Observation;
      Some(s.(generation := s.generation + 1,
              entries := s.entries + [Entry(kind, material.session, material.origin, material.text)]))
  }

  /** `None` is the compaction error. */
  function Compact(s: Snapshot, composition: Composition, summary: Text): (t: Option<Snapshot>)
    ensures t.Some? <==>
            composition.snapshot == s && composition.digests != [] && 1 <= |Strip(summary)| <= MAX_SUMMARY_CHARS
  {
    var normalized := Strip(summary);
    if composition.snapshot != s || composition.digests == [] then None
    else if normalized == [] || |normalized| > MAX_SUMMARY_CHARS then None
    else Some(s.(generation := s.generation + 1, entries := composition.entries, summary := normalized))
  }

  /** An operation that raises leaves the context as it was. */
  function Step(s: Snapshot, op: Op): (t: Snapshot)
    ensures t == s <==> !Changes(s, op)
    ensures t.generation >= s.generation && t.session == s.session
  {
    match op
    case Considering(material) => Consider(s, material).UnwrapOr(s)
    case Resetting => s.(generation := s.generation + 1, entries := [], summary := [])
    case Compacting(composition, summary) => Compact(s, composition, summary).UnwrapOr(s)
  }

  /** Stored material, a reset, an accepted compaction. */
  predicate Changes(s: Snapshot, op: Op) {
    match op
    case Considering(material) => material.session == s.session && !material.Ephemeral?
    case Resetting => true
    case Compacting(composition, summary) => Compact(s, composition, summary).Some?
  }

  /** What an operation leaves: stored material at the end, nothing at all, or exactly what was composed. */
  lemma OperationsDo(s: Snapshot, op: Op)
    ensures var t := Step(s, op);
            match op
            case Considering(material) =>
              if material.session != s.session || material.Ephemeral? then t == s
              else t == s.(generation := s.generation + 1,
                           entries := s.entries + [Entry(if material.Finalized? then Input else if material.Accepted? then Output else Observation,
                                                         s.session, material.origin, material.text)])
            case Resetting => t == Snapshot(s.session, s.generation + 1, [], [])
            case Compacting(composition, summary) =>
              if composition.snapshot == s && composition.digests != [] && 1 <= |Strip(summary)| <= 4000
              then t == Snapshot(s.session, s.generation + 1, composition.entries, Strip(summary))
              else t == s
  {
    hide Strip;
  }

  function Run(s: Snapshot, ops: seq<Op>): (t: Snapshot)
    ensures t.generation >= s.generation
  {
    if ops == [] then s else Step(Run(s, ops[..|ops| - 1]), ops[|ops| - 1])
  }

  /** Some operation of the run took effect. */
  ghost predicate Changed(s: Snapshot, ops: seq<Op>) {
    exists i :: 0 <= i < |ops| && Changes(Run(s, ops[..i]), ops[i])
  }

  lemma {:induction false} UnchangedExactlyWhenNothingHappened(s: Snapshot, ops: seq<Op>)
    ensures Run(s, ops) == s <==> !Changed(s, ops)
  {
    hide Compact, Consider, Changes;
    if ops != [] {
      var earlier := ops[..|ops| - 1];
      UnchangedExactlyWhenNothingHappened(s, earlier);
      ChangesLater(s, ops);
      assert Run(s, earlier) != s ==> Run(s, earlier).generation > s.generation by { GenerationTells(s, earlier); }
    }
  }

  lemma ChangesLater(s: Snapshot, ops: seq<Op>)
    requires ops != []
    ensures Changed(s, ops) <==> Changed(s, ops[..|ops| - 1]) || Changes(Run(s, ops[..|ops| - 1]), ops[|ops| - 1])
  {
    hide Changes, Run;
    var earlier := ops[..|ops| - 1];
    forall i | 0 <= i < |earlier| ensures earlier[..i] == ops[..i] && earlier[i] == ops[i] { }
  }

  lemma {:induction false} GenerationTells(s: Snapshot, ops: seq<Op>)
    ensures Run(s, ops) != s ==> Run(s, ops).generation > s.generation
  {
    if ops != [] {
      GenerationTells(s, ops[..|ops| - 1]);
    }
  }

  /**
   * A late summary is harmless: the compaction of a composition made `ops` ago is accepted exactly when no
   * material was stored, nothing reset and nothing compacted since, and composition and summary qualify.
   */
  lemma CompactionNeedsAQuietContext(composed: Snapshot, ops: seq<Op>, composition: Composition, summary: Text)
    requires composition.snapshot == composed
    ensures Compact(Run(composed, ops), composition, summary).Some? <==>
            !Changed(composed, ops) && composition.digests != [] && 1 <= |Strip(summary)| <= 4000
  {
    UnchangedExactlyWhenNothingHappened(composed, ops);
  }

  class TransientContext {
    const session: Session
    var generation: nat
    var entries: seq<Entry>
    var summary: Text

    function Current(): Snapshot
      reads this
    {
      Snapshot(session, generation, entries, summary)
    }

    constructor (session: Session)
      ensures Current() == Snapshot(session, 0, [], [])
    {
      this.session, generation, entries, summary := session, 0, [], [];
    }

    method Consider(material: Material) returns (ok: bool)
      modifies this
      ensures Current() == Step(old(Current()), Considering(material))
      ensures ok <==> material.session == session
    {
      if material.session != session {
        return false;
      }
      match material {
      case Finalized(_, origin, text) =>
        entries, generation := entries + [Entry(Input, session, origin, text)], generation + 1;
      case Accepted(_, origin, text) =>
        entries, generation := entries + [Entry(Output, session, origin, text)], generation + 1;
      case Observed(_, origin, text) =>
        entries, generation := entries + [Entry(Observation, session, origin, text)], generation + 1;
      case Ephemeral(_, _, _) =>
      }
      return true;
    }

    method Reset()
      modifies this
      ensures Current() == Step(old(Current()), Resetting)
    {
      entries, summary, generation := [], [], generation + 1;
    }

    method Compact(composition: Composition, summary: Text) returns (ok: bool)
      modifies this
      ensures Current() == Step(old(Current()), Compacting(composition, summary))
      ensures ok <==> Changes(old(Current()), Compacting(composition, summary))
    {
      if composition.snapshot != Current() || composition.digests == [] {
        return false;
      }
      var normalized := Strip(summary);
      if normalized == [] || |normalized| > MAX_SUMMARY_CHARS {
        return false;
      }
      entries, this.summary, generation := composition.entries, normalized, generation + 1;
      return true;
    }
  }
}
