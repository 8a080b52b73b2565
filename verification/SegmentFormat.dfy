/**
 * The two files of a segment, as byte strings.
 *
 * A log is the sequence of records appended so far. `SegOf` and `IdxOf` say which bytes a log
 * leaves in the `.seg` and the `.idx` file; everything a reader or a reopened writer concludes
 * from the bytes is stated against the log.
 */
module SegmentFormat {
  import opened LittleEndian
  import opened Wrappers

  const MAGIC_LEN: nat := 8
  const FRAME_HEADER_LEN: nat := 16
  const IDX_ENTRY_LEN: nat := 20

  // "PIFSEG\x00\x01" and "PIFIDX\x00\x01"
  const SEG_MAGIC: Bytes := [0x50, 0x49, 0x46, 0x53, 0x45, 0x47, 0x00, 0x01]
  const IDX_MAGIC: Bytes := [0x50, 0x49, 0x46, 0x49, 0x44, 0x58, 0x00, 0x01]

  /** The files begin with their kind in capitals, a zero and the version. */
  lemma MagicsAre()
    ensures |SEG_MAGIC| == |IDX_MAGIC| == 8
    ensures forall i :: 0 <= i < 6 ==> SEG_MAGIC[i] == "PIFSEG"[i] as int && IDX_MAGIC[i] == "PIFIDX"[i] as int
    ensures SEG_MAGIC[6..] == IDX_MAGIC[6..] == [0, 1]
  {
  }

  datatype Record = Record(number: nat, payload: Bytes)

  type Log = seq<Record>

  /** A frame's position: byte offset, and total length including its header. */
  datatype Located = Located(offset: nat, len: nat)

  // ----- the checksum -------------------------------------------------------------------

  /** One bit of the reflected CRC-32 polynomial division. */
  function CrcBit(c: bv32): bv32 {
    if c & 1 == 1 then (c >> 1) ^ 0xEDB88320 else c >> 1
  }

  function CrcByte(c: bv32): bv32 {
    CrcBit(CrcBit(CrcBit(CrcBit(CrcBit(CrcBit(CrcBit(CrcBit(c))))))))
  }

  function CrcStep(c: bv32, b: byte): bv32 {
    CrcByte(c ^ (b as bv32))
  }

  function CrcFrom(c: bv32, p: Bytes): bv32
    decreases |p|
  {
    if p == [] then c else CrcFrom(CrcStep(c, p[0]), p[1..])
  }

  /** CRC-32 as stored in a frame header. */
  function Crc32(p: Bytes): nat {
    (CrcFrom(0xFFFFFFFF, p) ^ 0xFFFFFFFF) as nat
  }

  /** The check value published with this CRC-32: that of the digits 1 to 9. */
  lemma CrcCheckValue()
    ensures Crc32([0x31, 0x32, 0x33, 0x34, 0x35, 0x36, 0x37, 0x38, 0x39]) == 0xCBF4_3926
  {
    CrcSteps();
    hide CrcStep, CrcFrom;
    var p := [];
    p := CrcOneByte(0x651F_2550, 0x39, p, 0x340B_C6D9);
    p := CrcOneByte(0xAFFC_9660, 0x38, p, 0x651F_2550);
    p := CrcOneByte(0xF68D_2C9E, 0x37, p, 0xAFFC_9660);
    p := CrcOneByte(0x340A_C5E3, 0x36, p, 0xF68D_2C9E);
    p := CrcOneByte(0x641C_1F5C, 0x35, p, 0x340A_C5E3);
    p := CrcOneByte(0x77B7_9C2D, 0x34, p, 0x641C_1F5C);
    p := CrcOneByte(0xB0AC_BB32, 0x33, p, 0x77B7_9C2D);
    p := CrcOneByte(0x7C23_1048, 0x32, p, 0xB0AC_BB32);
    p := CrcOneByte(0xFFFF_FFFF, 0x31, p, 0x7C23_1048);
    assert p == [0x31, 0x32, 0x33, 0x34, 0x35, 0x36, 0x37, 0x38, 0x39];
    CrcOfNothing(0x340B_C6D9);
  }

  lemma CrcOfNothing(c: bv32)
    ensures CrcFrom(c, []) == c
  {
  }

  lemma CrcOneByte(c: bv32, b: byte, rest: Bytes, next: bv32) returns (p: Bytes)
    requires CrcStep(c, b) == next
    ensures p == [b] + rest && CrcFrom(c, p) == CrcFrom(next, rest)
  {
    hide CrcStep;
    p := [b] + rest;
    assert p[1..] == rest;
  }

  lemma CrcSteps()
    ensures CrcStep(0xFFFF_FFFF, 0x31) == 0x7C23_1048
    ensures CrcStep(0x7C23_1048, 0x32) == 0xB0AC_BB32
    ensures CrcStep(0xB0AC_BB32, 0x33) == 0x77B7_9C2D
    ensures CrcStep(0x77B7_9C2D, 0x34) == 0x641C_1F5C
    ensures CrcStep(0x641C_1F5C, 0x35) == 0x340A_C5E3
    ensures CrcStep(0x340A_C5E3, 0x36) == 0xF68D_2C9E
    ensures CrcStep(0xF68D_2C9E, 0x37) == 0xAFFC_9660
    ensures CrcStep(0xAFFC_9660, 0x38) == 0x651F_2550
    ensures CrcStep(0x651F_2550, 0x39) == 0x340B_C6D9
  {
  }

  // ----- what a log looks like on disk ---------------------------------------------------

  function FrameLen(r: Record): nat {
    FRAME_HEADER_LEN + |r.payload|
  }

  /** `[number u64][payload_len u32][crc32 u32][payload]` */
  function Frame(r: Record): (f: Bytes)
    ensures |f| == FrameLen(r)
  {
    ToLe(r.number, 8) + ToLe(|r.payload|, 4) + ToLe(Crc32(r.payload), 4) + r.payload
  }

  function Frames(log: Log): Bytes {
    if log == [] then [] else Frames(Front(log)) + Frame(Last(log))
  }

  function Front<T>(s: seq<T>): seq<T>
    requires s != []
  {
    s[..|s| - 1]
  }

  function Last<T>(s: seq<T>): T
    requires s != []
  {
    s[|s| - 1]
  }

  /** Where the frame after the last record of `log` goes. */
  function End(log: Log): nat {
    MAGIC_LEN + |Frames(log)|
  }

  /** `[number u64][offset u64][frame_len u32]` */
  function Entry(number: nat, at: Located): (e: Bytes)
    ensures |e| == IDX_ENTRY_LEN
  {
    ToLe(number, 8) + ToLe(at.offset, 8) + ToLe(at.len, 4)
  }

  function LastLocated(log: Log): Located
    requires log != []
  {
    Located(End(Front(log)), FrameLen(Last(log)))
  }

  function Entries(log: Log): (e: Bytes)
    ensures |e| == IDX_ENTRY_LEN * |log|
  {
    if log == [] then [] else Entries(Front(log)) + Entry(Last(log).number, LastLocated(log))
  }

  function SegOf(log: Log): Bytes {
    SEG_MAGIC + Frames(log)
  }

  function IdxOf(log: Log): (b: Bytes)
    ensures |b| == MAGIC_LEN + IDX_ENTRY_LEN * |log|
  {
    IDX_MAGIC + Entries(log)
  }

  /** The offset map a reader of `log` holds: the last record of a number wins. */
  function IndexOf(log: Log): map<nat, Located> {
    if log == [] then map[] else IndexOf(Front(log))[Last(log).number := LastLocated(log)]
  }

  /** The last payload appended for a number. */
  function Lookup(log: Log, number: nat): Option<Bytes> {
    if log == [] then None
    else if Last(log).number == number then Some(Last(log).payload)
    else Lookup(Front(log), number)
  }

  /** Every integer of the record, and every offset of the log, fits the width it is stored in. */
  ghost predicate Fits(r: Record) {
    r.number < U64_LIMIT && FrameLen(r) < U32_LIMIT
  }

  ghost predicate LogOk(log: Log) {
    (forall r <- log :: Fits(r)) && End(log) < U64_LIMIT
  }

  /**
   * The files name exactly the records of `log`: the index holds its entries and at most a torn
   * one more, and the segment holds at least its frames.
   */
  ghost predicate Describes(seg: Bytes, idx: Bytes, log: Log) {
    && LogOk(log)
    && SegOf(log) <= seg
    && IdxOf(log) <= idx
    && |idx| < |IdxOf(log)| + IDX_ENTRY_LEN
  }

  // ----- prefixes -------------------------------------------------------------------------

  /** Appending one record appends one frame to the segment and one entry to the index. */
  lemma AppendBytes(log: Log, r: Record)
    ensures End(log + [r]) == End(log) + FrameLen(r)
    ensures SegOf(log + [r]) == SegOf(log) + Frame(r)
    ensures IdxOf(log + [r]) == IdxOf(log) + Entry(r.number, Located(End(log), FrameLen(r)))
    ensures IndexOf(log + [r]) == IndexOf(log)[r.number := Located(End(log), FrameLen(r))]
  {
    hide Frame, Entry, ToLe;
    var next := log + [r];
    assert Front(next) == log && Last(next) == r;
  }

  lemma {:induction false} PrefixBytes(log: Log, k: nat)
    requires k <= |log|
    ensures End(log[..k]) <= End(log)
    ensures SegOf(log[..k]) <= SegOf(log)
    ensures IdxOf(log[..k]) <= IdxOf(log)
    ensures LogOk(log) ==> LogOk(log[..k])
  {
    if k == |log| {
      assert log[..k] == log;
    } else {
      assert log == Front(log) + [Last(log)] && Front(log)[..k] == log[..k];
      PrefixBytes(Front(log), k);
      AppendBytes(Front(log), Last(log));
    }
  }

  lemma MiddleOfPrefix(whole: Bytes, before: Bytes, middle: Bytes)
    requires before + middle <= whole
    ensures whole[|before|..|before| + |middle|] == middle
  {
    assert whole[|before|..|before| + |middle|] == (before + middle)[|before|..];
  }

  /** One record further along a log: its length, its offset map. */
  lemma RecordStep(log: Log, k: nat)
    requires k < |log|
    ensures log[..k + 1] == log[..k] + [log[k]]
    ensures End(log[..k + 1]) == End(log[..k]) + FrameLen(log[k])
    ensures IndexOf(log[..k + 1])
            == IndexOf(log[..k])[log[k].number := Located(End(log[..k]), FrameLen(log[k]))]
  {
    assert log[..k + 1] == log[..k] + [log[k]];
    AppendBytes(log[..k], log[k]);
  }

  /** The k-th frame sits right after those before it. */
  lemma FrameAt(log: Log, k: nat)
    requires k < |log|
    ensures End(log[..k]) + FrameLen(log[k]) <= End(log)
    ensures SegOf(log)[End(log[..k])..End(log[..k]) + FrameLen(log[k])] == Frame(log[k])
  {
    hide Frame, ToLe, IndexOf, Entries;
    RecordStep(log, k);
    AppendBytes(log[..k], log[k]);
    PrefixBytes(log, k + 1);
    MiddleOfPrefix(SegOf(log), SegOf(log[..k]), Frame(log[k]));
  }

  /** So does the k-th entry, and it points at the k-th frame. */
  lemma EntryAt(log: Log, k: nat)
    requires k < |log|
    ensures IdxOf(log)[MAGIC_LEN + IDX_ENTRY_LEN * k..MAGIC_LEN + IDX_ENTRY_LEN * (k + 1)]
            == Entry(log[k].number, Located(End(log[..k]), FrameLen(log[k])))
  {
    hide Frame, Entry, ToLe, IndexOf, Frames;
    RecordStep(log, k);
    AppendBytes(log[..k], log[k]);
    PrefixBytes(log, k + 1);
    MiddleOfPrefix(IdxOf(log), IdxOf(log[..k]), Entry(log[k].number, Located(End(log[..k]), FrameLen(log[k]))));
  }

  // ----- decoding -------------------------------------------------------------------------

  lemma DecodeFrame(r: Record)
    requires Fits(r)
    ensures var f := Frame(r);
            FromLe(f[0..8]) == r.number && FromLe(f[8..12]) == |r.payload|
            && FromLe(f[12..16]) == Crc32(r.payload) && f[16..] == r.payload
  {
    hide ToLe, FromLe, Limit;
    LimitValues();
    LeRoundTrip(r.number, 8);
    LeRoundTrip(|r.payload|, 4);
    LeRoundTrip(Crc32(r.payload), 4);
    var f := Frame(r);
    assert f[0..8] == ToLe(r.number, 8);
    assert f[8..12] == ToLe(|r.payload|, 4);
    assert f[12..16] == ToLe(Crc32(r.payload), 4);
  }

  lemma DecodeEntry(number: nat, at: Located)
    requires number < U64_LIMIT && at.offset < U64_LIMIT && at.len < U32_LIMIT
    ensures var e := Entry(number, at);
            FromLe(e[0..8]) == number && FromLe(e[8..16]) == at.offset && FromLe(e[16..20]) == at.len
  {
    hide ToLe, FromLe, Limit;
    LimitValues();
    LeRoundTrip(number, 8);
    LeRoundTrip(at.offset, 8);
    LeRoundTrip(at.len, 4);
    var e := Entry(number, at);
    assert e[0..8] == ToLe(number, 8);
    assert e[8..16] == ToLe(at.offset, 8);
    assert e[16..20] == ToLe(at.len, 4);
  }

  /** The index knows exactly the numbers ever appended, and points each at its last record. */
  lemma {:induction false} IndexPointsAtLast(log: Log, number: nat)
    ensures number in IndexOf(log) <==> Lookup(log, number).Some?
    ensures number in IndexOf(log) ==>
              exists k: nat :: k < |log| && log[k].number == number
                && log[k].payload == Lookup(log, number).value
                && IndexOf(log)[number] == Located(End(log[..k]), FrameLen(log[k]))
  {
    hide End, Frame;
    if log != [] {
      if Last(log).number == number {
        var k := |log| - 1;
        assert log[..k] == Front(log) && log[k] == Last(log);
      } else {
        IndexPointsAtLast(Front(log), number);
        if number in IndexOf(log) {
          var k: nat :| k < |Front(log)| && Front(log)[k].number == number
            && Front(log)[k].payload == Lookup(log, number).value
            && IndexOf(log)[number] == Located(End(Front(log)[..k]), FrameLen(Front(log)[k]));
          assert Front(log)[..k] == log[..k] && Front(log)[k] == log[k];
        }
      }
    }
  }

  // ----- reading one frame ----------------------------------------------------------------

  datatype Corrupt = Unreadable | WrongNumber(found: nat) | WrongLength | BadChecksum

  /** What reading the frame the index names yields: its payload, or a loud refusal. */
  function ReadFrame(seg: Bytes, number: nat, at: Located): Result<Bytes, Corrupt>
    requires at.len >= FRAME_HEADER_LEN
  {
    if at.offset + at.len > |seg| then Err(Unreadable) else
    var frame := seg[at.offset..at.offset + at.len];
    var payload := frame[FRAME_HEADER_LEN..];
    if FromLe(frame[0..8]) != number then Err(WrongNumber(FromLe(frame[0..8]))) else
    if |payload| != FromLe(frame[8..12]) then Err(WrongLength) else
    if Crc32(payload) != FromLe(frame[12..16]) then Err(BadChecksum) else
    Ok(payload)
  }

  lemma ReadsFrame(seg: Bytes, r: Record, offset: nat)
    requires Fits(r) && offset + FrameLen(r) <= |seg|
    requires seg[offset..offset + FrameLen(r)] == Frame(r)
    ensures ReadFrame(seg, r.number, Located(offset, FrameLen(r))) == Ok(r.payload)
  {
    DecodeFrame(r);
  }

  /** As soon as its frame is complete, a record reads back from where its entry points. */
  lemma RecordReads(seg: Bytes, log: Log, k: nat)
    requires LogOk(log) && k < |log| && SegOf(log[..k + 1]) <= seg
    ensures ReadFrame(seg, log[k].number, Located(End(log[..k]), FrameLen(log[k]))) == Ok(log[k].payload)
  {
    hide Frame, ReadFrame, Entries, Frames, IndexOf;
    assert log[..k] + [log[k]] == log[..k + 1];
    AppendBytes(log[..k], log[k]);
    MiddleOfPrefix(seg, SegOf(log[..k]), Frame(log[k]));
    ReadsFrame(seg, log[k], End(log[..k]));
  }

  /** Through the index, a described segment answers every number with its last payload. */
  lemma ReadsBack(seg: Bytes, log: Log, number: nat)
    requires LogOk(log) && SegOf(log) <= seg
    ensures number in IndexOf(log) <==> Lookup(log, number).Some?
    ensures number in IndexOf(log) ==>
              IndexOf(log)[number].len >= FRAME_HEADER_LEN
              && ReadFrame(seg, number, IndexOf(log)[number]) == Ok(Lookup(log, number).value)
  {
    IndexPointsAtLast(log, number);
    if number in IndexOf(log) {
      var k: nat :| k < |log| && log[k].number == number
        && log[k].payload == Lookup(log, number).value
        && IndexOf(log)[number] == Located(End(log[..k]), FrameLen(log[k]));
      PrefixBytes(log, k + 1);
      RecordReads(seg, log, k);
    }
  }
}
