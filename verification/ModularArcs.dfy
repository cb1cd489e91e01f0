/** `modular_intervals_overlap` of src/orchestrator/voice_templates.py: closed arcs of 32-bit RTP timestamps. */
module ModularArcs {
  const TIMESTAMPS := 0x1_0000_0000
  const HALF_RANGE := 0x8000_0000

  function Wrapped(v: int): (w: nat)
    ensures w < TIMESTAMPS
  {
    v % TIMESTAMPS
  }

  predicate Overlap(firstStart: int, firstEnd: int, secondStart: int, secondEnd: int) {
    var firstSpan, secondSpan := Wrapped(firstEnd - firstStart), Wrapped(secondEnd - secondStart);
    && (Wrapped(secondStart - firstStart) <= firstSpan || Wrapped(firstStart - secondStart) <= secondSpan)
    && firstSpan < HALF_RANGE && secondSpan < HALF_RANGE
  }

  /** Walking forwards from `start`, `t` comes no later than `end`. */
  predicate OnArc(t: int, start: int, end: int) {
    Wrapped(t - start) <= Wrapped(end - start)
  }

  lemma WrappedDifference(a: int, b: int)
    ensures Wrapped(Wrapped(a) - Wrapped(b)) == Wrapped(a - b)
  {
  }

  lemma WrappedStart(start: int, other: int)
    ensures Wrapped(Wrapped(start) - other) == Wrapped(start - other)
    ensures Wrapped(Wrapped(start) - start) == 0
  {
  }

  /** Two arcs shorter than half the circle overlap exactly when some timestamp lies on both. */
  lemma OverlapMeansACommonTimestamp(firstStart: int, firstEnd: int, secondStart: int, secondEnd: int)
    ensures Overlap(firstStart, firstEnd, secondStart, secondEnd) <==>
            && (firstEnd - firstStart) % 0x1_0000_0000 < 0x8000_0000 && (secondEnd - secondStart) % 0x1_0000_0000 < 0x8000_0000
            && exists t: nat :: t < 0x1_0000_0000 && OnArc(t, firstStart, firstEnd) && OnArc(t, secondStart, secondEnd)
  {
    assert forall v: int :: Wrapped(v) == v % 0x1_0000_0000;
    hide Wrapped;
    if Wrapped(secondStart - firstStart) <= Wrapped(firstEnd - firstStart) {
      WrappedStart(secondStart, firstStart);
      assert OnArc(Wrapped(secondStart), firstStart, firstEnd) && OnArc(Wrapped(secondStart), secondStart, secondEnd);
    }
    if Wrapped(firstStart - secondStart) <= Wrapped(secondEnd - secondStart) {
      WrappedStart(firstStart, secondStart);
      assert OnArc(Wrapped(firstStart), firstStart, firstEnd) && OnArc(Wrapped(firstStart), secondStart, secondEnd);
    }
    forall t: nat | t < TIMESTAMPS && OnArc(t, firstStart, firstEnd) && OnArc(t, secondStart, secondEnd)
      ensures Wrapped(secondStart - firstStart) <= Wrapped(firstEnd - firstStart)
           || Wrapped(firstStart - secondStart) <= Wrapped(secondEnd - secondStart)
    {
      Between(t, firstStart, secondStart);
    }
  }

  /** Seen from `t`, one start is not before the other. */
  lemma Between(t: int, first: int, second: int)
    ensures Wrapped(second - first) <= Wrapped(t - first) || Wrapped(first - second) <= Wrapped(t - second)
  {
    var a, b := Wrapped(t - first), Wrapped(t - second);
    WrappedDifference(t - first, t - second);
    WrappedDifference(t - second, t - first);
    if a >= b {
      assert Wrapped(a - b) == a - b;
    } else {
      assert Wrapped(b - a) == b - a;
    }
  }

  lemma OverlapIsSymmetric(firstStart: int, firstEnd: int, secondStart: int, secondEnd: int)
    ensures Overlap(firstStart, firstEnd, secondStart, secondEnd) == Overlap(secondStart, secondEnd, firstStart, firstEnd)
  {
  }
}
