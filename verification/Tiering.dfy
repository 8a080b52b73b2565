/**
 * A tiering pass: which segments leave the hot tier, and what `archive_watermark` then means.
 */
module Tiering {
  import BlockArchive
  import opened Extrema
  import opened Layout
  import opened Wrappers

  /** One hot segment file, as the pass sees it. Times are whole seconds. */
  datatype Span = Span(index: nat, modified: Option<int>)

  ghost predicate Ascending(spans: seq<Span>) {
    forall i, j :: 0 <= i < j < |spans| ==> spans[i].index < spans[j].index
  }

  /** A file that is not from the future must be old enough; one without a time always is. */
  predicate RetainedLongEnough(span: Span, retention: nat, now: int) {
    retention == 0 || span.modified == None || now - span.modified.value >= retention
  }

  /** Written less than so long ago, as far as is known. */
  predicate Younger(span: Span, now: int, age: nat) {
    span.modified.Some? && now < span.modified.value + age
  }

  predicate Eligible(span: Span, size: nat, digested: int, retention: nat, now: int)
    requires size > 0
  {
    SegmentEnd(span.index, size) <= digested && RetainedLongEnough(span, retention, now)
  }

  /** No segment lying wholly at or below the mark is still hot. */
  ghost predicate Cleared(hot: seq<Span>, mark: int, size: nat)
    requires size > 0
  {
    forall span <- hot :: SegmentEnd(span.index, size) > mark
  }

  function Indexes(spans: seq<Span>): set<nat> {
    if spans == [] then {} else Indexes(spans[..|spans| - 1]) + {spans[|spans| - 1].index}
  }

  class Tier {
    const size: nat
    const onDigest: BlockArchive.OnDigest
    const hasCold: bool
    const retention: nat
    var hot: seq<Span>
    var cold: set<nat>
    var archiveMark: int
    var digestMark: int

    ghost predicate Valid()
      reads this
    {
      size > 0 && Ascending(hot) && Cleared(hot, archiveMark, size) && archiveMark <= digestMark
    }

    predicate Enabled()
      reads this
    {
      match onDigest
      case Keep => false
      case Delete => true
      case Archive => hasCold
    }

    /**
     * Move the eligible prefix of the hot segments: ascending, and the first one that is not
     * eligible ends it. Archiving leaves the segment on the cold tier, deleting does not.
     */
    method TierArchive(digested: int, now: int) returns (moved: nat)
      requires size > 0
      modifies `hot, `cold
      ensures moved <= |old(hot)| && hot == old(hot)[moved..]
      ensures forall span <- old(hot)[..moved] :: Eligible(span, size, digested, retention, now)
      // Nothing holding a block still to be digested, and nothing younger than the retention.
      ensures forall span <- old(hot)[..moved] ::
                (span.index + 1) * size - 1 <= digested && (retention > 0 ==> !Younger(span, now, retention))
      ensures if onDigest.Delete? || (onDigest.Archive? && hasCold)
              then hot != [] ==> !Eligible(hot[0], size, digested, retention, now)
              else moved == 0
      // And only such a segment ends the pass.
      ensures (onDigest.Delete? || (onDigest.Archive? && hasCold)) && hot != [] ==>
                (hot[0].index + 1) * size - 1 > digested || (retention > 0 && Younger(hot[0], now, retention))
      ensures cold == old(cold) + if onDigest.Archive? then Indexes(old(hot)[..moved]) else {}
    {
      moved := 0;
      if onDigest.Archive? && !hasCold {
        return;
      }
      var spans := hot;
      while moved < |spans|
        invariant moved <= |spans| && hot == spans[moved..]
        invariant forall span <- spans[..moved] :: Eligible(span, size, digested, retention, now)
        invariant onDigest.Keep? ==> moved == 0
        invariant cold == old(cold) + if onDigest.Archive? then Indexes(spans[..moved]) else {}
      {
        var span := spans[moved];
        if SegmentEnd(span.index, size) > digested || !RetainedLongEnough(span, retention, now) {
          break;
        }
        if onDigest.Keep? {
          break;
        }
        assert spans[..moved + 1] == spans[..moved] + [span];
        if onDigest.Archive? {
          cold := cold + {span.index};
        }
        hot := hot[1..];
        moved := moved + 1;
      }
    }

    /** One pass over the block archive; it advances the mark past the last segment it moved. */
    method Pass(now: int) returns (moved: nat)
      requires Valid()
      modifies `hot, `cold, `archiveMark
      ensures Valid()
      ensures moved <= |old(hot)| && hot == old(hot)[moved..]
      ensures moved > 0 ==> (onDigest.Delete? || (onDigest.Archive? && hasCold)) && digestMark >= 0
      ensures forall span <- old(hot)[..moved] :: Eligible(span, size, digestMark, retention, now)
      ensures (onDigest.Delete? || (onDigest.Archive? && hasCold)) && digestMark >= 0 && hot != [] ==>
                (hot[0].index + 1) * size - 1 > digestMark || (retention > 0 && Younger(hot[0], now, retention))
      ensures forall span <- old(hot)[..moved] ::
                (span.index + 1) * size - 1 <= digestMark && (retention > 0 ==> !Younger(span, now, retention))
      ensures cold == old(cold) + if onDigest.Archive? then Indexes(old(hot)[..moved]) else {}
      ensures archiveMark == if moved == 0 then old(archiveMark)
                             else Greatest(old(archiveMark), SegmentEnd(old(hot)[moved - 1].index, size))
    {
      if !Enabled() || digestMark < 0 {
        return 0;
      }
      var spans := hot;
      moved := TierArchive(digestMark, now);
      if moved > 0 {
        RestIsAbove(spans, moved, archiveMark, size);
        assert spans[moved - 1] in spans[..moved];
        archiveMark := Greatest(archiveMark, SegmentEnd(spans[moved - 1].index, size));
      }
    }
  }

  lemma RestIsAbove(spans: seq<Span>, moved: nat, mark: int, size: nat)
    requires size > 0 && Ascending(spans) && Cleared(spans, mark, size) && 0 < moved <= |spans|
    ensures Ascending(spans[moved..])
    ensures Cleared(spans[moved..], Greatest(mark, SegmentEnd(spans[moved - 1].index, size)), size)
  {
    forall span | span in spans[moved..]
      ensures SegmentEnd(span.index, size) > Greatest(mark, SegmentEnd(spans[moved - 1].index, size))
    {
      var i :| moved <= i < |spans| && spans[i] == span;
      SegmentsApart(spans[moved - 1].index, span.index, size);
    }
  }

  /** A block written above the archive mark lands in a segment that is not cleared. */
  lemma WritesStayAbove(hot: seq<Span>, mark: int, size: nat, number: nat, written: Span)
    requires size > 0 && Cleared(hot, mark, size)
    requires number > mark && written.index == SegmentIndex(number, size)
    ensures forall hot' :: (forall span <- hot' :: span in hot || span == written) ==> Cleared(hot', mark, size)
  {
    InSegment(number, written.index, size);
  }

  lemma SegmentsApart(a: nat, b: nat, size: nat)
    requires size > 0 && a < b
    ensures SegmentEnd(a, size) < SegmentEnd(b, size)
  {
    Multiply(a + 1, b, size);
    assert (a + 1) * size == a * size + size;
  }
}
