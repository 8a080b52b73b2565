/**
 * A segment whose index names frames that are not there: a power loss can leave the newer entries of
 * the index and not their frames, and nothing repairs that. Which numbers still read, for any bytes.
 */
module SegmentDamage {
  import opened LittleEndian
  import opened SegmentFormat
  import opened Wrappers

  /** The k-th record's frame is where the index says it is. */
  predicate Intact(seg: Bytes, log: Log, k: nat)
    requires k < |log|
  {
    End(log[..k]) + FrameLen(log[k]) <= |seg|
    && seg[End(log[..k])..End(log[..k]) + FrameLen(log[k])] == Frame(log[k])
  }

  /** The records named by the index that are not. */
  function Holes(seg: Bytes, log: Log): set<nat> {
    set k: nat | k < |log| && !Intact(seg, log, k)
  }

  ghost predicate IsLast(log: Log, number: nat, k: nat) {
    k < |log| && log[k].number == number && forall j :: k < j < |log| ==> log[j].number != number
  }

  // ----- reading ----------------------------------------------------------------------------------

  /** The offset map points a number at its last record, and `Lookup` takes the payload from there. */
  lemma {:induction false} LastIs(log: Log, number: nat, k: nat)
    requires IsLast(log, number, k)
    ensures number in IndexOf(log) && IndexOf(log)[number] == Located(End(log[..k]), FrameLen(log[k]))
    ensures Lookup(log, number) == Some(log[k].payload)
  {
    if k == |log| - 1 {
      assert log[..k] == Front(log);
    } else {
      LastIs(Front(log), number, k);
      assert Front(log)[..k] == log[..k];
    }
  }

  lemma {:induction false} LastExists(log: Log, number: nat) returns (k: nat)
    requires Lookup(log, number).Some?
    ensures IsLast(log, number, k)
  {
    k := |log| - 1;
    if Last(log).number != number {
      k := LastExists(Front(log), number);
    }
  }

  /** Only the frame of the record reads as its payload. */
  lemma ReadsOnlyItsFrame(seg: Bytes, r: Record, offset: nat)
    requires Fits(r)
    ensures ReadFrame(seg, r.number, Located(offset, FrameLen(r))) == Ok(r.payload)
            <==> offset + FrameLen(r) <= |seg| && seg[offset..offset + FrameLen(r)] == Frame(r)
    ensures offset + FrameLen(r) > |seg| ==> ReadFrame(seg, r.number, Located(offset, FrameLen(r))) == Err(Unreadable)
  {
    if offset + FrameLen(r) <= |seg| {
      var f := seg[offset..offset + FrameLen(r)];
      if f == Frame(r) {
        ReadsFrame(seg, r, offset);
      } else if ReadFrame(seg, r.number, Located(offset, FrameLen(r))) == Ok(r.payload) {
        HeaderIs(f, r);
      }
    }
  }

  lemma HeaderIs(f: Bytes, r: Record)
    requires |f| == FrameLen(r) && f[16..] == r.payload
    requires FromLe(f[0..8]) == r.number && FromLe(f[8..12]) == |r.payload| && FromLe(f[12..16]) == Crc32(r.payload)
    ensures f == Frame(r)
  {
    hide ToLe, FromLe, Crc32;
    BytesOfLe(f[0..8]);
    BytesOfLe(f[8..12]);
    BytesOfLe(f[12..16]);
    assert f == f[0..8] + f[8..12] + f[12..16] + f[16..];
  }

  /** A number reads its last payload if and only if the frame of its last record is there. */
  lemma LastReadsIff(seg: Bytes, log: Log, number: nat, k: nat)
    requires LogOk(log) && IsLast(log, number, k)
    ensures number in IndexOf(log) && IndexOf(log)[number].len >= FRAME_HEADER_LEN
    ensures ReadFrame(seg, number, IndexOf(log)[number]) == Ok(log[k].payload) <==> k !in Holes(seg, log)
    ensures End(log[..k]) + FrameLen(log[k]) > |seg| ==> ReadFrame(seg, number, IndexOf(log)[number]) == Err(Unreadable)
  {
    hide IndexOf, Frame, Fits, ReadFrame, Frames, Lookup;
    LastIs(log, number, k);
    assert Fits(log[k]);
    ReadsOnlyItsFrame(seg, log[k], End(log[..k]));
  }

  // ----- what makes holes, and what fills them ------------------------------------------------------

  /** Files written to the end have none. */
  lemma WholeHasNone(log: Log)
    ensures Holes(SegOf(log), log) == {}
  {
    forall k: nat | k < |log|
      ensures Intact(SegOf(log), log, k)
    {
      FrameAt(log, k);
    }
  }

  /** Cutting the segment at `s` and the index to `n` entries leaves the old holes and the frames cut. */
  lemma CutHoles(seg: Bytes, log: Log, s: nat, n: nat)
    requires s <= |seg| && n <= |log|
    ensures Holes(seg[..s], log[..n]) == set k: nat | k < n && (k in Holes(seg, log) || End(log[..k]) + FrameLen(log[k]) > s)
  {
    hide Frame, FrameLen, End;
    forall k: nat | k < n
      ensures Intact(seg[..s], log[..n], k) <==> Intact(seg, log, k) && End(log[..k]) + FrameLen(log[k]) <= s
    {
      assert log[..n][..k] == log[..k];
      var at, to := End(log[..k]), End(log[..k]) + FrameLen(log[k]);
      if to <= s {
        assert seg[..s][at..to] == seg[at..to];
      }
    }
  }

  function Zeros(n: nat): (z: Bytes)
    ensures |z| == n && forall i :: 0 <= i < n ==> z[i] == 0
  {
    if n == 0 then [] else [0] + Zeros(n - 1)
  }

  /** What reopening and writing at `at` makes of a segment: cut there, or filled with zeros up to there. */
  function Extended(seg: Bytes, at: nat): (b: Bytes)
    ensures |b| == at
  {
    if at <= |seg| then seg[..at] else seg + Zeros(at - |seg|)
  }

  /**
   * The next append goes after the last frame the index names, there or not. It is whole itself, it
   * makes no hole, and fills one only where the bytes lost happen to be the zeros of the gap.
   */
  lemma AppendHoles(seg: Bytes, log: Log, r: Record)
    ensures var grown := Extended(seg, End(log)) + Frame(r);
            Holes(grown, log + [r]) == Holes(Extended(seg, End(log)), log) <= Holes(seg, log)
  {
    hide Frame;
    var base, next := Extended(seg, End(log)), log + [r];
    var grown := base + Frame(r);
    assert next[..|log|] == log && Intact(grown, next, |log|) by {
      assert grown[End(log)..End(log) + FrameLen(r)] == Frame(r);
    }
    forall k: nat | k < |log|
      ensures Intact(grown, next, k) <==> Intact(base, log, k)
      ensures Intact(seg, log, k) ==> Intact(base, log, k)
    {
      FrameEnds(log, k);
      var at, to := End(log[..k]), End(log[..k]) + FrameLen(log[k]);
      assert next[..k] == log[..k];
      assert grown[at..to] == base[at..to];
      if to <= |seg| {
        assert base[at..to] == seg[at..to];
      }
    }
  }

  lemma FrameEnds(log: Log, k: nat)
    requires k < |log|
    ensures End(log[..k]) + FrameLen(log[k]) <= End(log)
  {
    FrameAt(log, k);
  }
}
