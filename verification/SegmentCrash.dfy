/**
 * Crash recovery of a segment: which records survive when a write is cut at any byte, and when
 * the two files are cut independently of each other.
 */
module SegmentCrash {
  import opened LittleEndian
  import opened SegmentFormat
  import opened Wrappers

  datatype Files = Files(seg: Bytes, idx: Bytes)

  function FilesOf(log: Log): Files {
    Files(SegOf(log), IdxOf(log))
  }

  function WithMagic(file: Bytes, magic: Bytes): Bytes {
    if |file| == 0 then magic else file
  }

  /** Number of complete entries in an index. */
  function EntryCount(idx: Bytes): nat {
    if |idx| < MAGIC_LEN then 0 else (|idx| - MAGIC_LEN) / IDX_ENTRY_LEN
  }

  /** Where the frames named by the index end: past the last complete entry's frame. */
  function IndexedEnd(idx: Bytes): nat {
    var frames := EntryCount(idx);
    if frames == 0 then MAGIC_LEN else
    var at := MAGIC_LEN + (frames - 1) * IDX_ENTRY_LEN;
    FromLe(idx[at + 8..at + 16]) + FromLe(idx[at + 16..at + 20])
  }

  /** What opening for append makes of the two files: both truncated to what the index names. */
  function Reopen(f: Files): Files {
    var seg, idx := WithMagic(f.seg, SEG_MAGIC), WithMagic(f.idx, IDX_MAGIC);
    var indexedLen := MAGIC_LEN + EntryCount(idx) * IDX_ENTRY_LEN;
    var end := IndexedEnd(idx);
    Files(if |seg| > end then seg[..end] else seg,
          if |idx| > indexedLen then idx[..indexedLen] else idx)
  }

  /** The last complete entry of an index says where its frame ends. */
  lemma LastEntryDecodes(idx: Bytes, at: nat, number: nat, where: Located)
    requires number < U64_LIMIT && where.offset < U64_LIMIT && where.len < U32_LIMIT
    requires at + IDX_ENTRY_LEN <= |idx| && idx[at..at + IDX_ENTRY_LEN] == Entry(number, where)
    ensures FromLe(idx[at + 8..at + 16]) == where.offset && FromLe(idx[at + 16..at + 20]) == where.len
  {
    var entry := idx[at..at + IDX_ENTRY_LEN];
    assert idx[at + 8..at + 16] == entry[8..16] && idx[at + 16..at + 20] == entry[16..20];
    DecodeEntry(number, where);
  }

  lemma IndexedEndIs(idx: Bytes, log: Log)
    requires LogOk(log) && IdxOf(log) <= idx && |idx| < |IdxOf(log)| + IDX_ENTRY_LEN
    ensures EntryCount(idx) == |log| && IndexedEnd(idx) == End(log)
  {
    hide Entries, Entry, Frame, ToLe, FromLe, IndexOf;
    assert EntryCount(idx) == |log|;
    if log == [] {
      EmptyEnd();
    } else {
      var front, r := Front(log), Last(log);
      var entry := Entry(r.number, Located(End(front), FrameLen(r)));
      assert front + [r] == log && r in log;
      AppendBytes(front, r);
      hide Frames;
      MiddleOfPrefix(idx, IdxOf(front), entry);
      LastEntryDecodes(idx, |IdxOf(front)|, r.number, Located(End(front), FrameLen(r)));
    }
  }

  lemma EmptyEnd()
    ensures End([]) == MAGIC_LEN
  {
  }

  /** Reopening described files leaves exactly the bytes of the log they describe. */
  lemma ReopenRecovers(f: Files, log: Log)
    requires Describes(WithMagic(f.seg, SEG_MAGIC), WithMagic(f.idx, IDX_MAGIC), log)
    ensures Reopen(f) == FilesOf(log)
  {
    IndexedEndIs(WithMagic(f.idx, IDX_MAGIC), log);
  }

  // ----- a write cut at any byte ------------------------------------------------------------

  /** The files after `cut` bytes of one append reached them: frame first, index entry second. */
  function CutAppend(f: Files, r: Record, cut: nat): Files
    requires cut <= FrameLen(r) + IDX_ENTRY_LEN
  {
    var frame, entry := Frame(r), Entry(r.number, Located(|f.seg|, FrameLen(r)));
    if cut <= |frame| then Files(f.seg + frame[..cut], f.idx)
    else Files(f.seg + frame, f.idx + entry[..cut - |frame|])
  }

  /** A life of a segment: appends that finish, and appends a crash cuts before a reopen. */
  datatype Event = Append(r: Record) | CrashIn(r: Record, cut: nat)

  /** Bytes of the event's append that reached the files. */
  function Written(e: Event): nat {
    match e
    case Append(r) => FrameLen(r) + IDX_ENTRY_LEN
    case CrashIn(r, cut) => if cut <= FrameLen(r) + IDX_ENTRY_LEN then cut else FrameLen(r) + IDX_ENTRY_LEN
  }

  /** The bytes on disk after a life of a segment, from two files that do not exist yet. */
  function FilesAfter(events: seq<Event>): Files {
    if events == [] then Reopen(Files([], [])) else
    var e := Last(events);
    var files := CutAppend(FilesAfter(Front(events)), e.r, Written(e));
    if e.CrashIn? then Reopen(files) else files
  }

  /** The records with a complete index entry. */
  function Survivors(events: seq<Event>): Log {
    if events == [] then [] else
    var before, e := Survivors(Front(events)), Last(events);
    if Written(e) == FrameLen(e.r) + IDX_ENTRY_LEN then before + [e.r] else before
  }

  /** Numbers, lengths and offsets stay within the widths the format stores them in. */
  ghost predicate WithinWidths(events: seq<Event>) {
    events == [] || (WithinWidths(Front(events)) && LogOk(Survivors(Front(events)) + [Last(events).r]))
  }

  lemma CutDescribes(log: Log, r: Record, cut: nat)
    requires LogOk(log + [r]) && cut <= FrameLen(r) + IDX_ENTRY_LEN
    ensures var f := CutAppend(FilesOf(log), r, cut);
            Describes(WithMagic(f.seg, SEG_MAGIC), WithMagic(f.idx, IDX_MAGIC),
                      if cut == FrameLen(r) + IDX_ENTRY_LEN then log + [r] else log)
    ensures cut == FrameLen(r) + IDX_ENTRY_LEN ==> CutAppend(FilesOf(log), r, cut) == FilesOf(log + [r])
  {
    hide Frame, Entry, ToLe, IndexOf, Frames, Entries;
    AppendBytes(log, r);
    assert (log + [r])[..|log|] == log;
    PrefixBytes(log + [r], |log|);
  }

  /** Files that do not exist yet describe the empty log. */
  lemma NothingDescribed()
    ensures Describes(WithMagic([], SEG_MAGIC), WithMagic([], IDX_MAGIC), [])
  {
  }

  /**
   * For any appends cut at any byte: reopening keeps exactly the records with a complete index
   * entry, and later appends land beside them.
   */
  lemma {:induction false} CrashRecovery(events: seq<Event>)
    requires WithinWidths(events)
    ensures FilesAfter(events) == FilesOf(Survivors(events))
    ensures LogOk(Survivors(events))
  {
    hide Reopen, CutAppend, Describes, FilesOf, Frame, Entries, Frames;
    if events == [] {
      NothingDescribed();
      ReopenRecovers(Files([], []), []);
    } else {
      var e, log := Last(events), Survivors(Front(events));
      CrashRecovery(Front(events));
      CutDescribes(log, e.r, Written(e));
      if e.CrashIn? {
        ReopenRecovers(CutAppend(FilesOf(log), e.r, Written(e)), Survivors(events));
      }
    }
  }

  // ----- files cut independently --------------------------------------------------------------

  /** Every complete entry of a cut index reads back from a cut segment. */
  ghost predicate AllEntriesRead(log: Log, seg: Bytes, entries: nat)
    requires entries <= |log|
  {
    forall k: nat :: k < entries ==>
      ReadFrame(seg, log[k].number, Located(End(log[..k]), FrameLen(log[k]))) == Ok(log[k].payload)
  }

  lemma CutReadable(log: Log, s: nat, entries: nat)
    requires LogOk(log) && entries <= |log| && End(log[..entries]) <= s <= |SegOf(log)|
    ensures AllEntriesRead(log, SegOf(log)[..s], entries)
    ensures SegOf(log[..entries]) <= SegOf(log)[..s]
  {
    hide ReadFrame, Frame, Entries, Frames, IndexOf;
    PrefixBytes(log, entries);
    assert |SegOf(log[..entries])| <= s;
    forall k: nat | k < entries
      ensures ReadFrame(SegOf(log)[..s], log[k].number, Located(End(log[..k]), FrameLen(log[k]))) == Ok(log[k].payload)
    {
      assert log[..entries][..k + 1] == log[..k + 1];
      PrefixBytes(log[..entries], k + 1);
      RecordReads(SegOf(log)[..s], log, k);
    }
  }

  /**
   * When the files lose their tails independently, what the index still names reads back if and
   * only if the segment was not cut below the end of the last frame it names.
   */
  lemma CutReadableIff(log: Log, s: nat, i: nat)
    requires LogOk(log)
    requires MAGIC_LEN <= s <= |SegOf(log)| && MAGIC_LEN <= i <= |IdxOf(log)|
    ensures var entries := EntryCount(IdxOf(log)[..i]);
            entries <= |log|
            && (AllEntriesRead(log, SegOf(log)[..s], entries) <==> End(log[..entries]) <= s)
            && (End(log[..entries]) <= s ==> Describes(SegOf(log)[..s], IdxOf(log)[..i], log[..entries]))
  {
    var entries := EntryCount(IdxOf(log)[..i]);
    if End(log[..entries]) <= s {
      CutReadable(log, s, entries);
      PrefixBytes(log, entries);
    } else {
      RecordStep(log, entries - 1);
    }
  }
}
