/**
 * Moving one segment to the cold tier, stopped at any point: copy, install, verify, record,
 * delete. Files are byte strings; a point says how far the move got.
 */
module TierMove {
  import opened LittleEndian
  import opened SegmentFormat
  import opened SegmentCrash
  import opened SegmentDamage
  import opened Wrappers

  /** One segment's files on both tiers, and whether the move was recorded. */
  datatype Tiers = Tiers(
    hotSeg: Option<Bytes>, hotIdx: Option<Bytes>,
    coldSeg: Option<Bytes>, coldIdx: Option<Bytes>,
    partialSeg: Option<Bytes>, partialIdx: Option<Bytes>,
    recorded: bool)

  /** What the cold disk really holds after each copy; a bad disk may hold something else. */
  datatype Copies = Copies(seg: Bytes, idx: Bytes)

  datatype Point =
    | CopyingSeg(bytes: nat)
    | InstalledSeg
    | CopyingIdx(bytes: nat)
    | InstalledIdx
    | Recorded
    | DeletedSeg
    | DeletedIdx

  function Upto(b: Bytes, n: nat): Bytes {
    if n < |b| then b[..n] else b
  }

  /** Installing is a rename; what follows a copy only happens once its checksum agreed. */
  predicate Reachable(t: Tiers, c: Copies, p: Point)
    requires t.hotSeg.Some?
  {
    && (!p.CopyingSeg? && !p.InstalledSeg? ==> Crc32(c.seg) == Crc32(t.hotSeg.value))
    && (p.CopyingIdx? ==> t.hotIdx.Some?)
    && (p.Recorded? || p.DeletedSeg? || p.DeletedIdx? ==> t.hotIdx.Some? ==> Crc32(c.idx) == Crc32(t.hotIdx.value))
  }

  function SegInstalled(t: Tiers, c: Copies): Tiers {
    t.(partialSeg := None, coldSeg := Some(c.seg))
  }

  function IdxInstalled(t: Tiers, c: Copies): Tiers {
    if t.hotIdx.Some? then SegInstalled(t, c).(partialIdx := None, coldIdx := Some(c.idx)) else SegInstalled(t, c)
  }

  /** The files when the move stopped at `p`. */
  function StoppedAt(t: Tiers, c: Copies, p: Point): Tiers {
    match p
    case CopyingSeg(n) => t.(partialSeg := Some(Upto(c.seg, n)))
    case InstalledSeg => SegInstalled(t, c)
    case CopyingIdx(n) => SegInstalled(t, c).(partialIdx := Some(Upto(c.idx, n)))
    case InstalledIdx => IdxInstalled(t, c)
    case Recorded => IdxInstalled(t, c).(recorded := true)
    case DeletedSeg => IdxInstalled(t, c).(recorded := true, hotSeg := None)
    case DeletedIdx => IdxInstalled(t, c).(recorded := true, hotSeg := None, hotIdx := None)
  }

  /** The pair of files a read is answered from. */
  function Answering(t: Tiers): Option<(Bytes, Option<Bytes>)> {
    if t.hotSeg.Some? then Some((t.hotSeg.value, t.hotIdx))
    else if t.coldSeg.Some? then Some((t.coldSeg.value, t.coldIdx))
    else None
  }

  /** No corruption of these two copies goes past their checksum. */
  predicate ChecksumsTell(t: Tiers, c: Copies)
    requires t.hotSeg.Some?
  {
    && (Crc32(c.seg) == Crc32(t.hotSeg.value) ==> c.seg == t.hotSeg.value)
    && (t.hotIdx.Some? && Crc32(c.idx) == Crc32(t.hotIdx.value) ==> c.idx == t.hotIdx.value)
  }

  // ----- the move, statement by statement -----------------------------------------------------------

  const COPY_BUFFER: nat := 65536

  /** Copy buffer by buffer; the process dies `upto` bytes in, when that is given. */
  method CopyBytes(held: Bytes, upto: Option<nat>) returns (written: Bytes)
    ensures written == if upto.Some? then Upto(held, upto.value) else held
  {
    written := [];
    while |written| < |held|
      invariant |written| <= |held| && written == held[..|written|]
      invariant upto.Some? ==> |written| <= upto.value
      decreases |held| - |written|
    {
      var next := if |written| + COPY_BUFFER < |held| then |written| + COPY_BUFFER else |held|;
      if upto.Some? && upto.value < next {
        return held[..upto.value];
      }
      written := written + held[|written|..next];
    }
  }

  /** The files of one segment. */
  class Disk {
    var files: Tiers

    constructor (files: Tiers)
      ensures this.files == files
    {
      this.files := files;
    }

    /**
     * Copy, install, verify, record, delete. The process dies at `stop`; a checksum that does not
     * agree ends the move before that, right after the bad copy was installed.
     */
    method MoveSegment(c: Copies, stop: Point) returns (reached: Point)
      requires files.hotSeg.Some?
      modifies this
      ensures Reachable(old(files), c, reached) && files == StoppedAt(old(files), c, reached)
      ensures if Reachable(old(files), c, stop) then reached == stop else reached.InstalledSeg? || reached.InstalledIdx?
    {
      hide Crc32;
      var written := CopyBytes(c.seg, if stop.CopyingSeg? then Some(stop.bytes) else None);
      files := files.(partialSeg := Some(written));
      if stop.CopyingSeg? {
        return stop;
      }
      files := files.(partialSeg := None, coldSeg := Some(written));
      if stop.InstalledSeg? || Crc32(written) != Crc32(files.hotSeg.value) {
        return InstalledSeg;
      }
      if files.hotIdx.Some? {
        written := CopyBytes(c.idx, if stop.CopyingIdx? then Some(stop.bytes) else None);
        files := files.(partialIdx := Some(written));
        if stop.CopyingIdx? {
          return stop;
        }
        files := files.(partialIdx := None, coldIdx := Some(written));
        if Crc32(written) != Crc32(files.hotIdx.value) {
          return InstalledIdx;
        }
      }
      if stop.CopyingIdx? || stop.InstalledIdx? {
        return InstalledIdx;
      }
      files := files.(recorded := true);
      if stop.Recorded? {
        return Recorded;
      }
      files := files.(hotSeg := None);
      if stop.DeletedSeg? {
        return DeletedSeg;
      }
      files := files.(hotIdx := None);
      return DeletedIdx;
    }
  }

  // ----- any number of interrupted passes ------------------------------------------------------------

  datatype Attempt = Attempt(c: Copies, p: Point)

  /** One pass; it sees a segment only through its hot `.seg` file. */
  function AfterAttempt(t: Tiers, a: Attempt): Tiers {
    if t.hotSeg.Some? then StoppedAt(t, a.c, a.p) else t
  }

  function After(t: Tiers, attempts: seq<Attempt>): Tiers
    decreases |attempts|
  {
    if attempts == [] then t else After(AfterAttempt(t, attempts[0]), attempts[1..])
  }

  ghost predicate Possible(t: Tiers, attempts: seq<Attempt>)
    decreases |attempts|
  {
    attempts == []
    || (&& (t.hotSeg.Some? ==> Reachable(t, attempts[0].c, attempts[0].p) && ChecksumsTell(t, attempts[0].c))
        && Possible(AfterAttempt(t, attempts[0]), attempts[1..]))
  }

  /** Files before any pass has finished: an index on the cold tier came from one on the hot tier. */
  predicate Unmoved(t: Tiers) {
    t.hotSeg.Some? && (t.hotIdx.Some? || t.coldIdx == None)
  }

  /**
   * However many passes are interrupted, wherever each stops, on good disks or bad: reads are
   * answered from the same bytes.
   */
  lemma {:induction false} NeverLoses(t: Tiers, attempts: seq<Attempt>)
    requires Possible(t, attempts) && (t.hotSeg.Some? ==> Unmoved(t))
    ensures Answering(After(t, attempts)) == Answering(t)
    decreases |attempts|
  {
    hide Crc32;
    if attempts != [] {
      NeverLoses(AfterAttempt(t, attempts[0]), attempts[1..]);
    }
  }

  /** The segment on the cold tier only, recorded, and nothing else left of the move. */
  function Finished(t: Tiers): Tiers {
    Tiers(None, None, t.hotSeg, if t.hotIdx.Some? then t.hotIdx else t.coldIdx, None,
          if t.hotIdx.Some? then None else t.partialIdx, true)
  }

  /** The pass that deletes the segment file dies before it deletes the index file. */
  predicate DiesBetweenDeletes(attempts: seq<Attempt>)
    decreases |attempts|
  {
    attempts != []
    && if attempts[0].p.DeletedSeg? || attempts[0].p.DeletedIdx? then attempts[0].p.DeletedSeg?
       else DiesBetweenDeletes(attempts[1..])
  }

  /**
   * Rerunning the pass until one gets to its end always reaches the same files, unless one died
   * between the two deletes: then the hot index file stays behind for good.
   */
  lemma {:induction false} RerunsFinishIff(t: Tiers, attempts: seq<Attempt>)
    requires Unmoved(t) && Possible(t, attempts) && After(t, attempts).hotSeg.None?
    ensures After(t, attempts) == Finished(t) <==> !(DiesBetweenDeletes(attempts) && t.hotIdx.Some?)
    ensures After(t, attempts).(hotIdx := None) == Finished(t)
    decreases |attempts|
  {
    hide Crc32;
    if attempts[0].p.DeletedSeg? || attempts[0].p.DeletedIdx? {
      NothingLeftToDo(AfterAttempt(t, attempts[0]), attempts[1..]);
    } else {
      RerunsFinishIff(AfterAttempt(t, attempts[0]), attempts[1..]);
    }
  }

  lemma {:induction false} NothingLeftToDo(t: Tiers, attempts: seq<Attempt>)
    requires t.hotSeg.None?
    ensures After(t, attempts) == t
    decreases |attempts|
  {
    if attempts != [] {
      NothingLeftToDo(t, attempts[1..]);
    }
  }

  // ----- the index left behind ------------------------------------------------------------------------

  lemma {:induction false} ZeroIsZero(b: Bytes)
    requires forall i :: 0 <= i < |b| ==> b[i] == 0
    ensures FromLe(b) == 0
  {
    if b != [] {
      ZeroIsZero(b[1..]);
    }
  }

  /** Reading where the gap is: a frame of zeros, which only an empty record of number 0 looks like. */
  lemma GapReads(seg: Bytes, number: nat, at: Located)
    requires at.len >= FRAME_HEADER_LEN && at.offset + at.len <= |seg|
    requires forall i :: at.offset <= i < at.offset + at.len ==> seg[i] == 0
    ensures ReadFrame(seg, number, at)
            == if number != 0 then Err(WrongNumber(0))
               else if at.len != FRAME_HEADER_LEN then Err(WrongLength) else Ok([])
  {
    var frame := seg[at.offset..at.offset + at.len];
    assert forall i :: 0 <= i < |frame| ==> frame[i] == 0;
    ZeroIsZero(frame[0..8]);
    ZeroIsZero(frame[8..12]);
    ZeroIsZero(frame[12..16]);
    assert Crc32([]) == 0;
  }

  /**
   * What the index left behind does when its segment is written again: the first frame goes past a
   * gap of zeros, where the old frames were. The new record reads back, and every old entry is
   * refused loudly, unless it is that of an empty record of number 0.
   */
  lemma LeftoverIndexMisleads(log: Log, r: Record, k: nat)
    requires LogOk(log + [r]) && k < |log|
    ensures var f := Reopen(Files([], IdxOf(log)));
            && f == Files(SEG_MAGIC, IdxOf(log)) && IndexedEnd(f.idx) == End(log)
            && f.idx + Entry(r.number, Located(End(log), FrameLen(r))) == IdxOf(log + [r])
            && var seg := Extended(f.seg, End(log)) + Frame(r);
               && ReadFrame(seg, r.number, Located(End(log), FrameLen(r))) == Ok(r.payload)
               && ReadFrame(seg, log[k].number, Located(End(log[..k]), FrameLen(log[k])))
                  == if log[k].number != 0 then Err(WrongNumber(0))
                     else if log[k].payload != [] then Err(WrongLength) else Ok([])
  {
    hide ReadFrame, Frame, Entry, Frames, Entries, Reopen;
    assert (log + [r])[..|log|] == log;
    PrefixBytes(log + [r], |log|);
    AppendBytes(log, r);
    ReopensEmpty(log);
    IndexedEndIs(IdxOf(log), log);
    var seg := Extended(SEG_MAGIC, End(log)) + Frame(r);
    FrameAt(log, k);
    assert |SEG_MAGIC| <= End(log[..k]);
    GapReads(seg, log[k].number, Located(End(log[..k]), FrameLen(log[k])));
    assert r in log + [r];
    assert seg[End(log)..End(log) + FrameLen(r)] == Frame(r);
    ReadsFrame(seg, r, End(log));
  }

  lemma ReopensEmpty(log: Log)
    requires LogOk(log)
    ensures Reopen(Files([], IdxOf(log))) == Files(SEG_MAGIC, IdxOf(log))
  {
    hide Frame, Entry, Frames, Entries;
    IndexedEndIs(IdxOf(log), log);
  }
}
