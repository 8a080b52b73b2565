/**
 * Appending to and reading from one segment.
 *
 * `SegmentFiles` is the pair of files on disk, shared by a writer and any number of readers.
 */
module Segment {
  import opened LittleEndian
  import opened SegmentFormat
  import opened SegmentCrash
  import opened Wrappers

  class SegmentFiles {
    var seg: Bytes
    var idx: Bytes
    /** The records the files name. */
    ghost var log: Log
    /** How much of each file has been flushed. */
    ghost var segDurable: nat
    ghost var idxDurable: nat

    /** A pair of files that may not have been created yet, or may hold a torn tail. */
    ghost predicate Valid()
      reads this
    {
      && Describes(WithMagic(seg, SEG_MAGIC), WithMagic(idx, IDX_MAGIC), log)
      && segDurable <= |seg| && idxDurable <= |idx|
    }

    ghost predicate Exists()
      reads this
    {
      Valid() && seg != [] && idx != []
    }

    ghost predicate Durable()
      reads this
    {
      segDurable == |seg| && idxDurable == |idx|
    }

    constructor ()
      ensures Valid() && seg == [] && idx == [] && log == [] && Durable()
    {
      seg, idx, log, segDurable, idxDurable := [], [], [], 0, 0;
    }
  }

  lemma WholeDescribes(log: Log)
    requires LogOk(log)
    ensures Describes(WithMagic(SegOf(log), SEG_MAGIC), WithMagic(IdxOf(log), IDX_MAGIC), log)
  {
  }

  datatype AppendResult = Appended | TooLarge | Panicked

  class SegmentWriter {
    const files: SegmentFiles
    var end: nat
    var frames: nat

    ghost predicate Valid()
      reads this, files
    {
      && files.Valid()
      && Files(files.seg, files.idx) == FilesOf(files.log)
      && end == End(files.log) && frames == |files.log|
    }

    /** Open for appending, trusting the index and discarding anything past it. */
    constructor (files: SegmentFiles)
      requires files.Valid()
      modifies files
      ensures this.files == files && Valid()
      ensures files.log == old(files.log)
      ensures Files(files.seg, files.idx) == Reopen(Files(old(files.seg), old(files.idx)))
      ensures old(files.Exists() && files.Durable()) ==> files.Durable()
    {
      hide Frame, Entry, Frames, Entries, ToLe, FromLe, Fits, SegOf, IdxOf;
      this.files := files;
      WholeDescribes(files.log);
      ghost var before := Files(files.seg, files.idx);
      var seg, idx := WithMagic(files.seg, SEG_MAGIC), WithMagic(files.idx, IDX_MAGIC);
      IndexedEndIs(idx, files.log);
      ghost var whole := idx;

      var frames := (|idx| - MAGIC_LEN) / IDX_ENTRY_LEN;
      var indexedLen := MAGIC_LEN + frames * IDX_ENTRY_LEN;
      if |idx| != indexedLen {
        idx := idx[..indexedLen];
      }
      var end := MAGIC_LEN;
      if frames != 0 {
        var at := MAGIC_LEN + (frames - 1) * IDX_ENTRY_LEN;
        end := FromLe(idx[at + 8..at + 16]) + FromLe(idx[at + 16..at + 20]);
        assert idx[at + 8..at + 16] == whole[at + 8..at + 16] && idx[at + 16..at + 20] == whole[at + 16..at + 20];
      }
      assert end == IndexedEnd(whole);
      if |seg| > end {
        seg := seg[..end];
      }
      this.end, this.frames := end, frames;
      assert Files(seg, idx) == Reopen(before);
      new;
      ReopenRecovers(before, files.log);
      files.seg, files.idx := seg, idx;
      if files.segDurable > |seg| { files.segDurable := |seg|; }
      if files.idxDurable > |idx| { files.idxDurable := |idx|; }
    }

    /**
     * Append one record: its frame, then its index entry. A payload that fits the length field
     * but whose frame does not is a panic after the frame was written.
     */
    method Append(number: nat, payload: Bytes) returns (r: AppendResult)
      requires Valid() && number < U64_LIMIT && end + FRAME_HEADER_LEN + |payload| < U64_LIMIT
      modifies this, files
      ensures files.Valid() && files.segDurable == old(files.segDurable) && files.idxDurable == old(files.idxDurable)
      ensures r.TooLarge? <==> |payload| >= U32_LIMIT
      ensures r.Appended? <==> FRAME_HEADER_LEN + |payload| < U32_LIMIT
      ensures r.Appended? ==> Valid() && files.log == old(files.log) + [Record(number, payload)]
      ensures !r.Appended? ==> files.log == old(files.log) && files.idx == old(files.idx)
      ensures r.TooLarge? ==> Valid() && files.seg == old(files.seg)
      ensures r.Panicked? ==> files.seg == old(files.seg) + Frame(Record(number, payload))
    {
      hide Frames, Entries, ToLe;
      if |payload| >= U32_LIMIT {
        return TooLarge;
      }
      var crc := Crc32(payload);
      var frame := ToLe(number, 8) + ToLe(|payload|, 4) + ToLe(crc, 4) + payload;
      files.seg := files.seg + frame;
      if |frame| >= U32_LIMIT {
        return Panicked;
      }
      var entry := ToLe(number, 8) + ToLe(end, 8) + ToLe(|frame|, 4);
      files.idx := files.idx + entry;

      ghost var record := Record(number, payload);
      AppendBytes(files.log, record);
      files.log := files.log + [record];
      end, frames := end + |frame|, frames + 1;
      return Appended;
    }

    method Sync()
      requires Valid()
      modifies files
      ensures Valid() && files.Durable()
      ensures files.seg == old(files.seg) && files.idx == old(files.idx) && files.log == old(files.log)
    {
      files.segDurable := |files.seg|;
      files.idxDurable := |files.idx|;
    }
  }

  /** Exactly the frames of `frames`, then at most the beginning of one more. */
  ghost predicate TornAfter(seg: Bytes, frames: Log, torn: Record) {
    && LogOk(frames) && Fits(torn)
    && SegOf(frames) <= seg && |seg| < End(frames) + FrameLen(torn)
    && seg[End(frames)..] <= Frame(torn)
  }

  /** A segment cut anywhere holds some of its frames whole, and the beginning of at most one more. */
  lemma {:induction false} CutIsTorn(log: Log, s: nat) returns (k: nat, torn: Record)
    requires LogOk(log) && MAGIC_LEN <= s <= |SegOf(log)|
    ensures k <= |log| && (k < |log| ==> torn == log[k])
    ensures TornAfter(SegOf(log)[..s], log[..k], torn)
  {
    hide Frame, Entries, IndexOf;
    if s == |SegOf(log)| {
      k, torn := |log|, Record(0, []);
      assert log[..k] == log && SegOf(log)[..s] == SegOf(log);
    } else {
      var front, r := Front(log), Last(log);
      assert log == front + [r] && r in log;
      AppendBytes(front, r);
      PrefixBytes(log, |front|);
      assert log[..|front|] == front;
      if s < |SegOf(front)| {
        k, torn := CutIsTorn(front, s);
        assert front[..k] == log[..k] && SegOf(log)[..s] == SegOf(front)[..s];
      } else {
        k, torn := |front|, r;
        CutInFrame(SegOf(front), Frame(r), s);
      }
    }
  }

  lemma CutInFrame(before: Bytes, frame: Bytes, s: nat)
    requires |before| <= s <= |before| + |frame|
    ensures before <= (before + frame)[..s] && (before + frame)[..s][|before|..] == frame[..s - |before|]
  {
  }

  class SegmentReader {
    const files: SegmentFiles
    /** Whether the sidecar was there when the reader was opened. */
    const indexed: bool
    var index: map<nat, Located>
    /** Bytes of the index parsed or, without one, the segment offset the scan reached. */
    var cursor: nat
    /** The records the offset map covers. */
    ghost var seen: Log

    ghost predicate Valid()
      reads this, files
    {
      && LogOk(seen) && index == IndexOf(seen)
      && SegOf(seen) <= files.seg
      && cursor == (if indexed then |IdxOf(seen)| else End(seen))
      && (indexed ==> seen <= files.log)
    }

    constructor (files: SegmentFiles, indexed: bool)
      requires files.Exists()
      ensures Valid() && this.files == files && this.indexed == indexed && seen == []
    {
      this.files, this.indexed, this.index, this.cursor, this.seen := files, indexed, map[], MAGIC_LEN, [];
      new;
      PrefixBytes(files.log, 0);
      assert files.log[..0] == [];
    }

    /** Pick up the index entries appended since the last look. */
    method Refresh()
      requires Valid() && files.Exists() && indexed
      modifies this
      ensures Valid() && seen == files.log
    {
      hide Frame, Entry, ToLe, FromLe, Frames, Entries, SegOf, End, IndexOf, IdxOf, Fits;
      ghost var log := files.log;
      var complete := MAGIC_LEN + (|files.idx| - MAGIC_LEN) / IDX_ENTRY_LEN * IDX_ENTRY_LEN;
      IndexedEndIs(files.idx, log);
      assert complete == |IdxOf(log)|;
      if complete > cursor {
        var at := cursor;
        ghost var k := |seen|;
        assert log[..k] == seen;
        while at < complete
          invariant k <= |log| && at == MAGIC_LEN + IDX_ENTRY_LEN * k
          invariant index == IndexOf(log[..k])
        {
          var entry := files.idx[at..at + IDX_ENTRY_LEN];
          EntryDecodes(files.idx, log, k);
          RecordStep(log, k);
          index := index[FromLe(entry[0..8]) := Located(FromLe(entry[8..16]), FromLe(entry[16..20]))];
          at, k := at + IDX_ENTRY_LEN, k + 1;
        }
        cursor, seen := complete, log;
        assert log[..k] == log;
      } else {
        assert log == seen;
      }
    }

    /** Walk the frames themselves when the sidecar is gone; a torn frame ends the scan. */
    method ScanFromCursor(ghost frames: Log, ghost torn: Record)
      requires Valid() && !indexed && TornAfter(files.seg, frames, torn) && seen <= frames
      modifies this
      ensures Valid() && seen == frames
    {
      hide Frame, Frames, ToLe, FromLe;
      var total := |files.seg|;
      var offset := cursor;
      ghost var k := |seen|;
      assert frames[..k] == seen;
      while offset + FRAME_HEADER_LEN <= total
        invariant k <= |frames| && offset == End(frames[..k])
        invariant index == IndexOf(frames[..k])
        decreases total - offset
      {
        var header := files.seg[offset..offset + FRAME_HEADER_LEN];
        if k < |frames| {
          HeaderInside(files.seg, frames, k);
          HeaderDecodes(header, frames[k]);
        } else {
          assert frames[..k] == frames;
          HeaderOfTail(files.seg, frames, torn);
          HeaderDecodes(header, torn);
        }
        var frameLen := FRAME_HEADER_LEN + FromLe(header[8..12]);
        if offset + frameLen > total {
          break;
        }
        index := index[FromLe(header[0..8]) := Located(offset, frameLen)];
        assert k < |frames|;
        RecordStep(frames, k);
        offset, k := offset + frameLen, k + 1;
      }
      if k < |frames| { HeaderInside(files.seg, frames, k); }
      assert frames[..k] == frames;
      cursor, seen := offset, frames;
    }

    /**
     * Read one record back; `Ok(None)` when the files never held it. Without the sidecar, `frames` and
     * `torn` say what the segment holds.
     */
    method Read(number: nat, ghost frames: Log, ghost torn: Record) returns (r: Result<Option<Bytes>, Corrupt>)
      requires Valid() && if indexed then files.Exists() else TornAfter(files.seg, frames, torn) && seen <= frames
      modifies this
      ensures Valid()
      ensures seen == if number in IndexOf(old(seen)) then old(seen) else if indexed then files.log else frames
      ensures r == Ok(Lookup(seen, number))
    {
      if number !in index {
        if indexed {
          Refresh();
        } else {
          ScanFromCursor(frames, torn);
        }
      }
      ReadsBack(files.seg, seen, number);
      if number !in index {
        return Ok(None);
      }
      match ReadFrame(files.seg, number, index[number])
      case Ok(payload) => return Ok(Some(payload));
      case Err(e) => return Err(e);
    }
  }

  lemma EntryDecodes(idx: Bytes, log: Log, k: nat)
    requires LogOk(log) && IdxOf(log) <= idx && k < |log|
    ensures var entry := idx[MAGIC_LEN + IDX_ENTRY_LEN * k..MAGIC_LEN + IDX_ENTRY_LEN * (k + 1)];
            FromLe(entry[0..8]) == log[k].number
            && FromLe(entry[8..16]) == End(log[..k]) && FromLe(entry[16..20]) == FrameLen(log[k])
  {
    hide Entries, Frames, Frame, Entry, ToLe, FromLe, IndexOf;
    EntryAt(log, k);
    FrameAt(log, k);
    var at := MAGIC_LEN + IDX_ENTRY_LEN * k;
    assert idx[at..at + IDX_ENTRY_LEN] == IdxOf(log)[at..at + IDX_ENTRY_LEN];
    assert Fits(log[k]);
    DecodeEntry(log[k].number, Located(End(log[..k]), FrameLen(log[k])));
  }

  /** What the sixteen bytes at the scan's offset say about the record they begin. */
  lemma HeaderDecodes(header: Bytes, r: Record)
    requires Fits(r) && header == Frame(r)[..FRAME_HEADER_LEN]
    ensures FromLe(header[0..8]) == r.number && FromLe(header[8..12]) == |r.payload|
  {
    DecodeFrame(r);
    assert header[0..8] == Frame(r)[0..8] && header[8..12] == Frame(r)[8..12];
  }

  lemma HeaderInside(seg: Bytes, frames: Log, k: nat)
    requires LogOk(frames) && SegOf(frames) <= seg && k < |frames|
    ensures End(frames[..k]) + FrameLen(frames[k]) <= |seg|
    ensures seg[End(frames[..k])..End(frames[..k]) + FRAME_HEADER_LEN] == Frame(frames[k])[..FRAME_HEADER_LEN]
  {
    FrameAt(frames, k);
    var at, len := End(frames[..k]), FrameLen(frames[k]);
    assert seg[at..at + len] == SegOf(frames)[at..at + len];
    assert seg[at..at + FRAME_HEADER_LEN] == seg[at..at + len][..FRAME_HEADER_LEN];
  }

  lemma HeaderOfTail(seg: Bytes, frames: Log, torn: Record)
    requires TornAfter(seg, frames, torn) && End(frames) + FRAME_HEADER_LEN <= |seg|
    ensures seg[End(frames)..End(frames) + FRAME_HEADER_LEN] == Frame(torn)[..FRAME_HEADER_LEN]
  {
    var at := End(frames);
    assert seg[at..at + FRAME_HEADER_LEN] == seg[at..][..FRAME_HEADER_LEN];
  }
}
