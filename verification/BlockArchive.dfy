/**
 * The block archive as the pipeline sees it: which blocks the hot and the cold files answer, which of
 * them are flushed, and what storing, flushing, crashing, and moving or deleting whole segments do.
 */
module BlockArchive {
  import opened Wrappers

  /** What becomes of a segment once it is digested. */
  datatype OnDigest = Keep | Archive | Delete

  /**
   * `hot` and `cold` are the blocks a tier's files answer. `synced` are those with a flushed record in a
   * hot file, `dirty` those stored since the last flush; a block stored again is both. `files` are the
   * segments with a hot file, `copied` is the one a tiering pass has copied and still to drop, and `ever` is
   * every block that has been on disk.
   */
  datatype Holdings = Holdings(
    size: int, mode: OnDigest,
    hot: set<int>, synced: set<int>, dirty: set<int>, files: set<int>, cold: set<int>,
    copied: Option<int>, ever: set<int>)

  function Segment(b: int, size: int): int {
    if size > 0 then b / size else b
  }

  /** The last block of a segment. */
  function SegmentLast(seg: int, size: int): int {
    seg * size + size - 1
  }

  lemma InItsSegment(b: int, size: int)
    requires size > 0
    ensures b <= SegmentLast(Segment(b, size), size)
  {
  }

  function Empty(size: int, mode: OnDigest): Holdings {
    Holdings(size, mode, {}, {}, {}, {}, {}, None, {})
  }

  ghost predicate Valid(a: Holdings) {
    && a.size > 0
    && a.hot == a.synced + a.dirty
    && a.synced <= a.ever && a.cold <= a.ever
    && (forall b <- a.hot :: Segment(b, a.size) in a.files)
    && (forall b, c :: b in a.dirty && c in a.dirty ==> Segment(b, a.size) == Segment(c, a.size))
    && (a.mode == Delete ==> a.cold == {} && a.copied == None)
    && (a.copied.Some? ==> a.copied.value in a.files && Of(a.cold, a.copied.value, a.size) <= a.hot)
  }

  /** Which file answers is decided segment by segment: the hot one whenever there is one. */
  predicate Readable(a: Holdings, b: int) {
    if Segment(b, a.size) in a.files then b in a.hot else b in a.cold
  }

  /** It is read, and what is read is flushed. */
  predicate OnDisk(a: Holdings, b: int) {
    if Segment(b, a.size) in a.files then b in a.synced else b in a.cold
  }

  function Of(blocks: set<int>, seg: int, size: int): set<int> {
    set b | b in blocks && Segment(b, size) == seg
  }

  datatype Op =
    | Store(b: int)
    | Flush
    /** A pass copies a segment to the cold tier. */
    | Copy(seg: int)
    /** It drops the hot file: of the segment it copied, or, when it deletes, of any. */
    | Drop(seg: int)
    /** A crash: of the blocks stored since the last flush, `kept` decides which are still read. */
    | Cut(kept: set<int>)

  /** A block stored again since it was flushed can be lost: its newer index entry may outlive its frame. */
  predicate Can(a: Holdings, op: Op) {
    match op
    case Copy(seg) => a.mode == Archive && seg in a.files
    case Drop(seg) => seg in a.files && (a.mode == Delete || (a.mode == Archive && a.copied == Some(seg)))
    case Cut(kept) => a.synced - a.dirty <= kept <= a.hot
    case _ => true
  }

  function FlushAll(a: Holdings): Holdings {
    a.(synced := a.hot, dirty := {}, ever := a.ever + a.hot)
  }

  /** Storing into another segment than the last one flushes that one first. */
  function Sealed(a: Holdings, seg: int): Holdings {
    if forall b <- a.dirty :: Segment(b, a.size) == seg then a else FlushAll(a)
  }

  function Apply(a: Holdings, op: Op): Holdings {
    match op
    case Store(b) =>
      var ready := Sealed(a, Segment(b, a.size));
      ready.(hot := ready.hot + {b}, dirty := ready.dirty + {b}, files := ready.files + {Segment(b, a.size)})
    case Flush => FlushAll(a)
    case Copy(seg) =>
      var held := Of(a.hot, seg, a.size);
      a.(cold := a.cold - Of(a.cold, seg, a.size) + held, copied := Some(seg), ever := a.ever + held)
    case Drop(seg) =>
      var held := Of(a.hot, seg, a.size);
      a.(hot := a.hot - held, synced := a.synced - held, dirty := a.dirty - held, files := a.files - {seg},
         copied := None, ever := a.ever + held)
    case Cut(kept) => a.(hot := kept, synced := kept, dirty := {}, copied := None, ever := a.ever + kept)
  }

  lemma ApplyValid(a: Holdings, op: Op)
    requires Valid(a) && Can(a, op)
    ensures Valid(Apply(a, op))
    ensures Apply(a, op).size == a.size && Apply(a, op).mode == a.mode && a.ever <= Apply(a, op).ever
  {
  }

  // ----- what the pipeline relies on ------------------------------------------------------------------

  /** Above `mark`, the block is in a hot file. */
  predicate Held(a: Holdings, mark: int, b: int) {
    b > mark ==> b in a.hot
  }

  /** Above `mark`, it is in a hot file and was flushed there. */
  predicate Firm(a: Holdings, mark: int, b: int) {
    b > mark ==> b in a.synced
  }

  /** Above `mark`, it is read from the disk. */
  predicate Safe(a: Holdings, mark: int, b: int) {
    b > mark ==> OnDisk(a, b)
  }

  /** The operation after which a block above the mark is not safe any more. */
  predicate Endangers(a: Holdings, op: Op, b: int) {
    match op
    case Store(c) => Segment(c, a.size) == Segment(b, a.size) && Segment(b, a.size) !in a.files
    case Cut(kept) => Segment(b, a.size) in a.files && b !in kept
    case _ => false
  }

  /**
   * What is safe above the mark stays safe, whatever is stored, flushed, and moved or deleted below it,
   * unless a crash loses it or its segment has only a cold copy and is stored into.
   */
  lemma StaysSafeIff(a: Holdings, op: Op, mark: int, b: int)
    requires Valid(a) && Can(a, op) && Safe(a, mark, b)
    requires op.Drop? ==> SegmentLast(op.seg, a.size) <= mark
    ensures Safe(Apply(a, op), mark, b) <==> b <= mark || !Endangers(a, op, b)
  {
    InItsSegment(b, a.size);
  }

  lemma StaysHeld(a: Holdings, op: Op, mark: int, b: int)
    requires Valid(a) && Can(a, op) && Held(a, mark, b) && !op.Cut?
    requires op.Drop? ==> SegmentLast(op.seg, a.size) <= mark
    ensures Held(Apply(a, op), mark, b)
    ensures op.Flush? || Firm(a, mark, b) ==> Firm(Apply(a, op), mark, b)
  {
    InItsSegment(b, a.size);
  }

  /** Every crash leaves a safe block safe if and only if it was not stored again since it was flushed. */
  lemma SurvivesIff(a: Holdings, mark: int, b: int)
    requires Valid(a) && Safe(a, mark, b) && b > mark
    ensures (forall kept :: Can(a, Cut(kept)) ==> Safe(Apply(a, Cut(kept)), mark, b)) <==> b !in a.dirty
  {
    assert Can(a, Cut(a.synced - a.dirty));
    assert b in a.dirty ==> !Safe(Apply(a, Cut(a.synced - a.dirty)), mark, b);
  }

  // ----- what stays readable --------------------------------------------------------------------------

  ghost predicate CanAll(a: Holdings, ops: seq<Op>)
    decreases |ops|
  {
    ops == [] || (Can(a, ops[0]) && CanAll(Apply(a, ops[0]), ops[1..]))
  }

  function AfterOps(a: Holdings, ops: seq<Op>): Holdings
    decreases |ops|
  {
    if ops == [] then a else AfterOps(Apply(a, ops[0]), ops[1..])
  }

  /**
   * The step that takes block `b` away: the hot file is dropped with no cold record of it, because the
   * segment is deleted or it was stored after the copy; another block is stored into its segment with only
   * a cold copy there; or a crash loses it.
   */
  predicate Takes(a: Holdings, op: Op, b: int) {
    var seg := Segment(b, a.size);
    match op
    case Store(c) => c != b && Segment(c, a.size) == seg && seg !in a.files
    case Flush => false
    case Copy(_) => false
    case Drop(s) => s == seg && b !in a.cold
    case Cut(kept) => b in a.hot && b !in kept
  }

  ghost predicate Taken(a: Holdings, ops: seq<Op>, b: int)
    decreases |ops|
  {
    ops != [] && (Takes(a, ops[0], b) || Taken(Apply(a, ops[0]), ops[1..], b))
  }

  /** Stored at step `i` and not taken away since. */
  ghost predicate StoredFor(a: Holdings, ops: seq<Op>, b: int, i: nat) {
    i < |ops| && ops[i] == Store(b) && !Taken(AfterOps(a, ops[..i + 1]), ops[i + 1..], b)
  }

  /**
   * After any operations a block is read if and only if nothing took it away since it was last stored, or
   * since the beginning if it was read then.
   */
  lemma {:induction false} ReadableIff(a: Holdings, ops: seq<Op>, b: int)
    requires Valid(a) && CanAll(a, ops)
    ensures Readable(AfterOps(a, ops), b)
            <==> (Readable(a, b) && !Taken(a, ops, b)) || exists i: nat :: StoredFor(a, ops, b, i)
    decreases |ops|
  {
    if ops != [] {
      var next, rest := Apply(a, ops[0]), ops[1..];
      ApplyValid(a, ops[0]);
      ReadableIff(next, rest, b);
      OneStep(a, ops[0], b);
      StoredLater(a, ops, b);
    }
  }

  lemma OneStep(a: Holdings, op: Op, b: int)
    requires Valid(a) && Can(a, op)
    ensures Readable(Apply(a, op), b) <==> op == Store(b) || (Readable(a, b) && !Takes(a, op, b))
    ensures Takes(a, op, b) ==> op != Store(b)
  {
  }

  lemma StoredLater(a: Holdings, ops: seq<Op>, b: int)
    requires ops != []
    ensures (exists i: nat :: StoredFor(a, ops, b, i))
            <==> || (ops[0] == Store(b) && !Taken(Apply(a, ops[0]), ops[1..], b))
                 || exists i: nat :: StoredFor(Apply(a, ops[0]), ops[1..], b, i)
  {
    var next, rest := Apply(a, ops[0]), ops[1..];
    assert ops[..1][1..] == [] && AfterOps(a, ops[..1]) == next;
    forall i: nat
      ensures StoredFor(next, rest, b, i) <==> StoredFor(a, ops, b, i + 1)
    {
      if i < |rest| {
        assert ops[..i + 2][0] == ops[0] && ops[..i + 2][1..] == rest[..i + 1] && ops[i + 2..] == rest[i + 1..];
      }
    }
    assert ops[0] == Store(b) && !Taken(next, rest, b) <==> StoredFor(a, ops, b, 0);
    if i: nat :| StoredFor(a, ops, b, i) {
      assert i == 0 || StoredFor(next, rest, b, i - 1);
    }
  }
}
