/**
 * The block archive of the pipeline is what the segment files answer: every step of the one is what the
 * operations on the other do, power losses that cut the two files of a segment apart included.
 */
module ArchiveRefinement {
  import opened BlockArchive
  import opened Extrema
  import opened Layout
  import opened LittleEndian
  import opened SegmentDamage
  import opened SegmentFormat
  import opened Segstore
  import SegmentCrash
  import StoreRefinement
  import opened Wrappers

  // ----- segment files that may have lost frames ----------------------------------------------------

  /** The records the index names, how many of them were flushed, and those whose frame is not there. */
  datatype SegFile = SegFile(file: File, holes: set<nat>)

  ghost predicate FileOk(f: SegFile) {
    f.file.durable <= |f.file.log| && forall h <- f.holes :: h < f.file.durable
  }

  /** A number is answered from its last record, which has to be there. */
  ghost predicate Answers(f: SegFile, number: nat) {
    exists k :: IsLast(f.file.log, number, k) && k !in f.holes
  }

  ghost predicate AnswersFlushed(f: SegFile, number: nat)
    requires FileOk(f)
  {
    exists k :: IsLast(f.file.log[..f.file.durable], number, k) && k !in f.holes
  }

  function Append(f: SegFile, r: Record): SegFile {
    f.(file := f.file.(log := f.file.log + [r]))
  }

  function Sync(f: SegFile): SegFile {
    f.(file := f.file.(durable := |f.file.log|))
  }

  /** What is left when the two files lose their tails. */
  ghost function AfterCut(f: SegFile, c: StoreRefinement.Cut): SegFile
    requires StoreRefinement.CanLose(f.file, c)
  {
    StoreRefinement.NamedWithin(f.file, c);
    var log, n := f.file.log, StoreRefinement.Named(f.file.log, c);
    SegFile(File(log[..n], n), set k: nat | k < n && (k in f.holes || End(log[..k]) + FrameLen(log[k]) > c.seg))
  }

  lemma AppendAnswers(f: SegFile, r: Record, number: nat)
    requires FileOk(f)
    ensures FileOk(Append(f, r))
    ensures Answers(Append(f, r), number) <==> number == r.number || Answers(f, number)
    ensures AnswersFlushed(Append(f, r), number) <==> AnswersFlushed(f, number)
    ensures !StoreRefinement.NotPutSince(Append(f, r).file, number)
            <==> number == r.number || !StoreRefinement.NotPutSince(f.file, number)
  {
    var log, next := f.file.log, f.file.log + [r];
    assert next[..f.file.durable] == log[..f.file.durable];
    assert next[|log|] == r && forall j :: 0 <= j < |log| ==> next[j] == log[j];
    if number == r.number {
      assert IsLast(next, number, |log|);
    } else {
      forall k: nat
        ensures IsLast(next, number, k) <==> IsLast(log, number, k)
      {
        if IsLast(log, number, k) {
          assert forall j :: k < j < |next| ==> next[j].number != number;
        }
        if IsLast(next, number, k) {
          assert k < |log|;
          assert forall j :: k < j < |log| ==> log[j] == next[j];
        }
      }
    }
  }

  lemma SyncAnswers(f: SegFile, number: nat)
    requires FileOk(f)
    ensures FileOk(Sync(f)) && (Answers(Sync(f), number) <==> Answers(f, number))
    ensures AnswersFlushed(Sync(f), number) <==> Answers(f, number)
    ensures StoreRefinement.NotPutSince(Sync(f).file, number)
  {
    assert f.file.log[..|f.file.log|] == f.file.log;
  }

  lemma FlushedAnswers(f: SegFile, number: nat)
    requires FileOk(f) && Flushed(f.file)
    ensures AnswersFlushed(f, number) <==> Answers(f, number)
    ensures StoreRefinement.NotPutSince(f.file, number)
  {
    assert Sync(f) == f;
    SyncAnswers(f, number);
  }

  lemma CutIsFlushed(f: SegFile, c: StoreRefinement.Cut)
    requires FileOk(f) && StoreRefinement.CanLose(f.file, c)
    ensures FileOk(AfterCut(f, c)) && Flushed(AfterCut(f, c).file)
  {
    StoreRefinement.NamedWithin(f.file, c);
    hide StoreRefinement.Named, Frames;
  }

  /** A flushed number not put since is answered after a crash. */
  lemma CutKeepsFlushed(f: SegFile, c: StoreRefinement.Cut, number: nat)
    requires FileOk(f) && StoreRefinement.CanLose(f.file, c)
    requires AnswersFlushed(f, number) && StoreRefinement.NotPutSince(f.file, number)
    ensures Answers(AfterCut(f, c), number)
  {
    StoreRefinement.NamedWithin(f.file, c);
    var log, n := f.file.log, StoreRefinement.Named(f.file.log, c);
    var k :| IsLast(log[..f.file.durable], number, k) && k !in f.holes;
    SameLast(f.file, n, number, k);
    StoreRefinement.LastIsThere(f.file, c, number, k);
    RecordStep(log, k);
    hide StoreRefinement.Named, StoreRefinement.CanLose, Frames, Frame, IsLast;
    assert k < n && k !in AfterCut(f, c).holes;
  }

  lemma SameLast(f: File, n: nat, number: nat, k: nat)
    requires f.durable <= n <= |f.log| && IsLast(f.log[..f.durable], number, k) && StoreRefinement.NotPutSince(f, number)
    ensures IsLast(f.log[..n], number, k) && k < f.durable
  {
    forall j | k < j < n
      ensures f.log[..n][j].number != number
    {
      assert j < f.durable ==> f.log[..f.durable][j] == f.log[j];
    }
  }

  /** What is answered after a crash was answered before. */
  lemma CutAddsNothing(f: SegFile, c: StoreRefinement.Cut, number: nat)
    requires FileOk(f) && StoreRefinement.CanLose(f.file, c)
    requires Answers(AfterCut(f, c), number)
    ensures Answers(f, number)
  {
    StoreRefinement.NamedWithin(f.file, c);
    hide StoreRefinement.Named, StoreRefinement.CanLose, Frames, Frame;
    var log, n := f.file.log, StoreRefinement.Named(f.file.log, c);
    var k :| IsLast(log[..n], number, k) && k !in AfterCut(f, c).holes;
    if !IsLast(log, number, k) {
      var j := LaterRecord(log, number, n, k);
    }
  }

  lemma LaterRecord(log: Log, number: nat, n: nat, k: nat) returns (j: nat)
    requires n <= |log| && IsLast(log[..n], number, k) && !IsLast(log, number, k)
    ensures n <= j && IsLast(log, number, j)
  {
    var f := File(log, n);
    assert !StoreRefinement.NotPutSince(f, number);
    j := StoreRefinement.LastPutSince(f, number);
  }

  /** The holes are those of the bytes: a cut makes exactly these, and an append makes none. */
  lemma HolesAreInBytes(f: SegFile, seg: Bytes, c: StoreRefinement.Cut, r: Record)
    requires FileOk(f) && StoreRefinement.CanLose(f.file, c) && Holes(seg, f.file.log) == f.holes
    ensures Holes(seg[..Least(c.seg, |seg|)], AfterCut(f, c).file.log) == AfterCut(f, c).holes
    ensures Holes(Extended(seg, End(f.file.log)) + Frame(r), Append(f, r).file.log) <= f.holes
  {
    hide Frame, End, StoreRefinement.Named;
    StoreRefinement.NamedWithin(f.file, c);
    CutHoles(seg, f.file.log, Least(c.seg, |seg|), StoreRefinement.Named(f.file.log, c));
    AppendHoles(seg, f.file.log, r);
  }

  // ----- two tiers of them --------------------------------------------------------------------------

  /** What the two roots hold, the segment being appended to, and the one a pass has copied and still to drop. */
  datatype Disk = Disk(hot: map<Key, SegFile>, cold: map<Key, SegFile>, writer: Option<Key>, copied: Option<Key>)

  ghost function Files(tier: map<Key, SegFile>): Segstore.Tier {
    map k | k in tier :: tier[k].file
  }

  /** Everything not flushed belongs to the open writer's segment. */
  ghost predicate DiskOk(d: Disk) {
    && (d.writer.Some? ==> d.writer.value in d.hot)
    && (forall k <- d.hot :: FileOk(d.hot[k]) && (Flushed(d.hot[k].file) || d.writer == Some(k)))
    && (forall k <- d.cold :: FileOk(d.cold[k]) && Flushed(d.cold[k].file))
  }

  function SyncWriter(d: Disk): Disk {
    if d.writer.Some? && d.writer.value in d.hot
    then d.(hot := d.hot[d.writer.value := Sync(d.hot[d.writer.value])]) else d
  }

  /** Append to a segment, flushing the one before it when it is another. */
  function PutOn(d: Disk, k: Key, r: Record): Disk {
    var ready := if d.writer == Some(k) then d else SyncWriter(d);
    var f := if k in ready.hot then ready.hot[k] else SegFile(File([], 0), {});
    ready.(hot := ready.hot[k := Append(f, r)], writer := Some(k))
  }

  function CopyOn(d: Disk, k: Key): Disk
    requires k in d.hot
  {
    d.(cold := d.cold[k := Sync(d.hot[k])], copied := Some(k))
  }

  function DropOn(d: Disk, k: Key): Disk {
    d.(hot := d.hot - {k}, writer := if d.writer == Some(k) then None else d.writer, copied := None)
  }

  /** Every hot segment loses what its two files may lose, each on its own. */
  ghost predicate Crashes(d: Disk, d': Disk) {
    && d'.cold == d.cold && d'.writer == None && d'.copied == None && d'.hot.Keys == d.hot.Keys
    && forall k <- d.hot :: exists c :: StoreRefinement.CanLose(d.hot[k].file, c) && d'.hot[k] == AfterCut(d.hot[k], c)
  }

  /** Which tier answers is decided by the hot file being there. */
  ghost predicate Answered(d: Disk, k: Key, number: nat) {
    if k in d.hot then Answers(d.hot[k], number) else k in d.cold && Answers(d.cold[k], number)
  }

  ghost function StoreOf(d: Disk): Segstore.Store {
    Segstore.Store(LogsOf(Files(d.hot)), LogsOf(Files(d.cold)))
  }

  lemma SyncIsNoChange(d: Disk)
    ensures StoreOf(SyncWriter(d)) == StoreOf(d)
  {
  }

  /** These are the operations of the two-tier store. */
  lemma OperationsAreTheStores(d: Disk, k: Key, r: Record)
    ensures StoreOf(PutOn(d, k, r)) == PutRecord(StoreOf(d), k, r)
    ensures StoreOf(DropOn(d, k)) == DropSegment(StoreOf(d), k)
    ensures k in d.hot ==> StoreOf(CopyOn(d, k)) == CopySegment(StoreOf(d), k)
  {
    hide StoreOf, PutRecord, DropSegment, CopySegment, Append, SyncWriter, CopyOn;
    var ready := if d.writer == Some(k) then d else SyncWriter(d);
    SyncIsNoChange(d);
    PutIsTheStores(ready, k, if k in ready.hot then ready.hot[k] else SegFile(File([], 0), {}), r);
    DropIsTheStores(d, k);
    if k in d.hot {
      CopyIsTheStores(d, k);
    }
  }

  lemma DropIsTheStores(d: Disk, k: Key)
    ensures StoreOf(DropOn(d, k)) == DropSegment(StoreOf(d), k)
  {
    assert StoreOf(DropOn(d, k)).hot == DropSegment(StoreOf(d), k).hot;
  }

  lemma CopyIsTheStores(d: Disk, k: Key)
    requires k in d.hot
    ensures StoreOf(CopyOn(d, k)) == CopySegment(StoreOf(d), k)
  {
    assert StoreOf(CopyOn(d, k)).cold == CopySegment(StoreOf(d), k).cold;
  }

  lemma PutIsTheStores(ready: Disk, k: Key, f: SegFile, r: Record)
    requires f == if k in ready.hot then ready.hot[k] else SegFile(File([], 0), {})
    ensures StoreOf(ready.(hot := ready.hot[k := Append(f, r)], writer := Some(k))) == PutRecord(StoreOf(ready), k, r)
  {
    var after, spec := StoreOf(ready.(hot := ready.hot[k := Append(f, r)], writer := Some(k))), PutRecord(StoreOf(ready), k, r);
    assert after.hot.Keys == spec.hot.Keys;
    assert after.hot == spec.hot;
  }

  /** And its answers, where no frame was lost. */
  lemma AnsweredIsView(d: Disk, k: Key, number: nat)
    requires (k in d.hot ==> d.hot[k].holes == {}) && (k in d.cold ==> d.cold[k].holes == {})
    ensures Answered(d, k, number) <==> View(StoreOf(d), k, number).Some?
  {
    if k in d.hot {
      LooksUp(d.hot[k].file.log, number);
    } else if k in d.cold {
      LooksUp(d.cold[k].file.log, number);
    }
  }

  lemma LooksUp(log: Log, number: nat)
    ensures Lookup(log, number).Some? <==> exists k :: IsLast(log, number, k)
  {
    if Lookup(log, number).Some? {
      var k := LastExists(log, number);
    } else if k :| IsLast(log, number, k) {
      LastIs(log, number, k);
    }
  }

  // ----- the archive of a chain ---------------------------------------------------------------------

  ghost predicate HotAnswers(d: Disk, k: Key, b: nat) {
    k in d.hot && Answers(d.hot[k], b)
  }

  ghost predicate HotFlushed(d: Disk, k: Key, b: nat) {
    k in d.hot && FileOk(d.hot[k]) && AnswersFlushed(d.hot[k], b)
  }

  ghost predicate HotDirty(d: Disk, k: Key, b: nat) {
    k in d.hot && !StoreRefinement.NotPutSince(d.hot[k].file, b)
  }

  ghost predicate ColdAnswers(d: Disk, k: Key, b: nat) {
    k in d.cold && Answers(d.cold[k], b)
  }

  /** The holdings say of a block what the disks do. */
  ghost predicate BlockOk(d: Disk, chain: string, a: Holdings, b: nat)
    requires a.size > 0
  {
    var k := KeyOf(chain, b, a.size);
    && (b in a.hot <==> HotAnswers(d, k, b)) && (b in a.synced <==> HotFlushed(d, k, b))
    && (b in a.dirty <==> HotDirty(d, k, b)) && (b in a.cold <==> ColdAnswers(d, k, b))
  }

  ghost predicate FilesOk(d: Disk, chain: string, a: Holdings) {
    (forall seg <- a.files :: seg >= 0) && forall seg: nat :: seg in a.files <==> Key(chain, seg) in d.hot
  }

  ghost predicate CopiedOk(d: Disk, chain: string, a: Holdings) {
    (a.copied.Some? ==> a.copied.value >= 0)
    && forall seg: nat :: a.copied == Some(seg) <==> d.copied == Some(Key(chain, seg))
  }

  ghost predicate NoneBelowZero(a: Holdings) {
    forall b :: b in a.hot || b in a.synced || b in a.dirty || b in a.cold ==> b >= 0
  }

  /** The holdings are those of a chain on these disks. */
  ghost predicate Abstracts(d: Disk, chain: string, a: Holdings) {
    && DiskOk(d) && a.size > 0 && FilesOk(d, chain, a) && CopiedOk(d, chain, a) && NoneBelowZero(a)
    && forall b: nat :: BlockOk(d, chain, a, b)
  }

  /** What a step of the pipeline does to the disks. */
  ghost predicate Does(d: Disk, chain: string, size: nat, mode: OnDigest, op: Op, d': Disk)
    requires size > 0
  {
    match op
    case Store(b) => b >= 0 && exists payload :: d' == PutOn(d, KeyOf(chain, b, size), Record(b, payload))
    case Flush => d' == SyncWriter(d)
    case Copy(seg) =>
      mode == Archive && seg >= 0 && Key(chain, seg) in d.hot && d' == CopyOn(d, Key(chain, seg))
    case Drop(seg) =>
      && seg >= 0 && Key(chain, seg) in d.hot && d' == DropOn(d, Key(chain, seg))
      && (mode == Delete || (mode == Archive && d.copied == Some(Key(chain, seg))))
    case Cut(kept) =>
      && Crashes(d, d')
      && (forall b <- kept :: b >= 0)
      && forall b: nat :: b in kept <==> HotAnswers(d', KeyOf(chain, b, size), b)
  }

  lemma AnsweredIsReadable(d: Disk, chain: string, a: Holdings, b: nat)
    requires Abstracts(d, chain, a)
    ensures Readable(a, b) <==> Answered(d, KeyOf(chain, b, a.size), b)
  {
    hide Answers, DiskOk;
    assert BlockOk(d, chain, a, b);
    assert SegmentIndex(b, a.size) == Segment(b, a.size);
  }

  lemma FlushFollows(d: Disk, chain: string, a: Holdings)
    requires Abstracts(d, chain, a)
    ensures Abstracts(SyncWriter(d), chain, FlushAll(a))
  {
    SyncedOk(d);
    hide DiskOk, HotAnswers, HotFlushed, HotDirty, SyncWriter, SegmentIndex;
    forall b: nat
      ensures BlockOk(SyncWriter(d), chain, FlushAll(a), b)
    {
      assert BlockOk(d, chain, a, b);
      SyncedAnswers(d, KeyOf(chain, b, a.size), b);
    }
  }

  lemma SyncedOk(d: Disk)
    requires DiskOk(d)
    ensures DiskOk(SyncWriter(d)) && forall k <- SyncWriter(d).hot :: Flushed(SyncWriter(d).hot[k].file)
    ensures SyncWriter(d).hot.Keys == d.hot.Keys && SyncWriter(d).cold == d.cold
  {
  }

  lemma SyncedAnswers(d: Disk, k: Key, b: nat)
    requires DiskOk(d)
    ensures var d' := SyncWriter(d);
            && (HotAnswers(d', k, b) <==> HotAnswers(d, k, b)) && (HotFlushed(d', k, b) <==> HotAnswers(d, k, b))
            && !HotDirty(d', k, b) && (ColdAnswers(d', k, b) <==> ColdAnswers(d, k, b))
  {
    SyncedOk(d);
    if k in d.hot {
      hide Answers, AnswersFlushed, StoreRefinement.NotPutSince;
      FlushedAnswers(SyncWriter(d).hot[k], b);
      SyncAnswers(d.hot[k], b);
    }
  }

  lemma OnlyTheWriterIsDirty(d: Disk, k: Key, b: nat)
    requires DiskOk(d) && HotDirty(d, k, b)
    ensures d.writer == Some(k)
  {
  }

  function Appended(d: Disk, k: Key, r: Record): Disk {
    var f := if k in d.hot then d.hot[k] else SegFile(File([], 0), {});
    d.(hot := d.hot[k := Append(f, r)], writer := Some(k))
  }

  function Stored(a: Holdings, b: int): Holdings {
    a.(hot := a.hot + {b}, dirty := a.dirty + {b}, files := a.files + {Segment(b, a.size)})
  }

  /** Appending to the writer's own segment, or with everything flushed. */
  lemma AppendFollows(d: Disk, chain: string, a: Holdings, b: nat, payload: Bytes)
    requires Abstracts(d, chain, a)
    requires var k := KeyOf(chain, b, a.size); d.writer == Some(k) || forall j <- d.hot :: Flushed(d.hot[j].file)
    ensures Abstracts(Appended(d, KeyOf(chain, b, a.size), Record(b, payload)), chain, Stored(a, b))
  {
    var k, r := KeyOf(chain, b, a.size), Record(b, payload);
    var d' := Appended(d, k, r);
    AppendedOk(d, k, r);
    hide DiskOk, HotAnswers, HotFlushed, HotDirty, ColdAnswers, Appended;
    assert SegmentIndex(b, a.size) == Segment(b, a.size);
    forall c: nat
      ensures BlockOk(d', chain, Stored(a, b), c)
    {
      assert BlockOk(d, chain, a, c);
      AppendedAnswers(d, k, r, KeyOf(chain, c, a.size), c);
    }
    assert forall seg: nat :: Key(chain, seg) in d'.hot <==> Key(chain, seg) in d.hot || seg == SegmentIndex(b, a.size);
  }

  lemma AppendedOk(d: Disk, k: Key, r: Record)
    requires DiskOk(d)
    requires d.writer == Some(k) || forall j <- d.hot :: Flushed(d.hot[j].file)
    ensures DiskOk(Appended(d, k, r)) && Appended(d, k, r).hot.Keys == d.hot.Keys + {k}
  {
    AppendAnswers(if k in d.hot then d.hot[k] else SegFile(File([], 0), {}), r, 0);
  }

  lemma AppendedAnswers(d: Disk, k: Key, r: Record, j: Key, c: nat)
    requires DiskOk(d)
    requires c == r.number ==> j == k
    ensures var d' := Appended(d, k, r);
            && (HotAnswers(d', j, c) <==> c == r.number || HotAnswers(d, j, c))
            && (HotFlushed(d', j, c) <==> HotFlushed(d, j, c))
            && (HotDirty(d', j, c) <==> c == r.number || HotDirty(d, j, c))
            && (ColdAnswers(d', j, c) <==> ColdAnswers(d, j, c))
  {
    AppendAnswers(if k in d.hot then d.hot[k] else SegFile(File([], 0), {}), r, c);
    if k !in d.hot {
      NothingAnswers(c);
    }
    hide Answers, AnswersFlushed, StoreRefinement.NotPutSince, Append;
  }

  lemma NothingAnswers(c: nat)
    ensures var f := SegFile(File([], 0), {});
            FileOk(f) && !Answers(f, c) && !AnswersFlushed(f, c) && StoreRefinement.NotPutSince(f.file, c)
  {
  }

  lemma StoreFollows(d: Disk, chain: string, a: Holdings, b: nat, payload: Bytes)
    requires Abstracts(d, chain, a) && Valid(a)
    ensures Abstracts(PutOn(d, KeyOf(chain, b, a.size), Record(b, payload)), chain, Apply(a, Op.Store(b)))
  {
    var k, r := KeyOf(chain, b, a.size), Record(b, payload);
    DirtyInWriter(d, chain, a);
    if d.writer == Some(k) {
      AppendFollows(d, chain, a, b, payload);
      hide Abstracts, Append;
      assert PutOn(d, k, r) == Appended(d, k, r);
      assert forall c <- a.dirty :: Segment(c, a.size) == Segment(b, a.size);
      assert Apply(a, Op.Store(b)) == Stored(a, b);
    } else {
      FlushFollows(d, chain, a);
      SyncedOk(d);
      AppendFollows(SyncWriter(d), chain, FlushAll(a), b, payload);
      hide Abstracts, Append, SyncWriter;
      assert PutOn(d, k, r) == Appended(SyncWriter(d), k, r);
      SealedIsFlushed(a, b, chain, d.writer);
      SameBlocksFollow(PutOn(d, k, r), chain, Stored(FlushAll(a), b), Apply(a, Op.Store(b)));
    }
  }

  lemma DirtyInWriter(d: Disk, chain: string, a: Holdings)
    requires Abstracts(d, chain, a)
    ensures forall c <- a.dirty :: c >= 0 && d.writer == Some(KeyOf(chain, c, a.size))
  {
    hide Answers, AnswersFlushed, HotAnswers, HotFlushed, ColdAnswers, SegmentIndex, HotDirty, DiskOk;
    forall c | c in a.dirty
      ensures c >= 0 && d.writer == Some(KeyOf(chain, c, a.size))
    {
      assert BlockOk(d, chain, a, c);
      OnlyTheWriterIsDirty(d, KeyOf(chain, c, a.size), c);
    }
  }

  /** The same blocks, whatever has been on disk before. */
  ghost predicate SameBlocks(a: Holdings, a': Holdings) {
    && a'.size == a.size && a'.files == a.files && a'.cold == a.cold && a'.copied == a.copied
    && forall b :: (b in a'.hot <==> b in a.hot) && (b in a'.synced <==> b in a.synced) && (b in a'.dirty <==> b in a.dirty)
  }

  /** Storing elsewhere flushes first; when nothing was dirty, that changes nothing. */
  lemma SealedIsFlushed(a: Holdings, b: nat, chain: string, writer: Option<Key>)
    requires Valid(a) && writer != Some(KeyOf(chain, b, a.size))
    requires forall c <- a.dirty :: c >= 0 && writer == Some(KeyOf(chain, c, a.size))
    ensures SameBlocks(Stored(FlushAll(a), b), Apply(a, Op.Store(b)))
  {
    if forall c <- a.dirty :: Segment(c, a.size) == Segment(b, a.size) {
      forall c
        ensures c !in a.dirty
      {
        assert c in a.dirty ==> Segment(c, a.size) == Segment(b, a.size);
      }
    }
  }

  lemma SameBlocksFollow(d: Disk, chain: string, a: Holdings, a': Holdings)
    requires Abstracts(d, chain, a) && SameBlocks(a, a')
    ensures Abstracts(d, chain, a')
  {
    hide HotAnswers, HotFlushed, HotDirty, ColdAnswers, DiskOk, KeyOf;
    forall b: nat
      ensures BlockOk(d, chain, a', b)
    {
      assert BlockOk(d, chain, a, b);
    }
  }

  lemma CopyFollows(d: Disk, chain: string, a: Holdings, seg: nat)
    requires Abstracts(d, chain, a) && Key(chain, seg) in d.hot && a.mode == Archive
    ensures Can(a, Copy(seg)) && Abstracts(CopyOn(d, Key(chain, seg)), chain, Apply(a, Copy(seg)))
  {
    var k := Key(chain, seg);
    var d' := CopyOn(d, k);
    TieredOk(d, k);
    hide DiskOk, HotAnswers, HotFlushed, HotDirty, ColdAnswers, CopyOn;
    forall c: nat
      ensures BlockOk(d', chain, Apply(a, Copy(seg)), c)
    {
      assert BlockOk(d, chain, a, c);
      CopiedAnswers(d, k, KeyOf(chain, c, a.size), c);
      assert KeyOf(chain, c, a.size) == k <==> Segment(c, a.size) == seg;
      assert c in Of(a.hot, seg, a.size) <==> c in a.hot && Segment(c, a.size) == seg;
      assert c in Of(a.cold, seg, a.size) <==> c in a.cold && Segment(c, a.size) == seg;
    }
    assert forall s: nat :: Key(chain, s) in d'.hot <==> Key(chain, s) in d.hot;
  }

  lemma DropFollows(d: Disk, chain: string, a: Holdings, seg: nat)
    requires Abstracts(d, chain, a) && Valid(a) && Key(chain, seg) in d.hot
    requires a.mode == Delete || (a.mode == Archive && d.copied == Some(Key(chain, seg)))
    ensures Can(a, Drop(seg)) && Abstracts(DropOn(d, Key(chain, seg)), chain, Apply(a, Drop(seg)))
  {
    var k := Key(chain, seg);
    var d' := DropOn(d, k);
    TieredOk(d, k);
    hide DiskOk, HotAnswers, HotFlushed, HotDirty, ColdAnswers, DropOn;
    forall c: nat
      ensures BlockOk(d', chain, Apply(a, Drop(seg)), c)
    {
      assert BlockOk(d, chain, a, c);
      DroppedAnswers(d, k, KeyOf(chain, c, a.size), c);
      assert KeyOf(chain, c, a.size) == k <==> Segment(c, a.size) == seg;
      assert c in Of(a.hot, seg, a.size) <==> c in a.hot && Segment(c, a.size) == seg;
    }
    assert forall s: nat :: Key(chain, s) in d'.hot <==> Key(chain, s) in d.hot && s != seg;
  }

  lemma CopiedAnswers(d: Disk, k: Key, j: Key, c: nat)
    requires DiskOk(d) && k in d.hot
    ensures var d' := CopyOn(d, k);
            && (HotAnswers(d', j, c) <==> HotAnswers(d, j, c))
            && (HotFlushed(d', j, c) <==> HotFlushed(d, j, c))
            && (HotDirty(d', j, c) <==> HotDirty(d, j, c))
            && (ColdAnswers(d', j, c) <==> if j == k then HotAnswers(d, j, c) else ColdAnswers(d, j, c))
  {
    SyncAnswers(d.hot[k], c);
    hide Answers, AnswersFlushed, StoreRefinement.NotPutSince;
  }

  lemma DroppedAnswers(d: Disk, k: Key, j: Key, c: nat)
    ensures var d' := DropOn(d, k);
            && (HotAnswers(d', j, c) <==> j != k && HotAnswers(d, j, c))
            && (HotFlushed(d', j, c) <==> j != k && HotFlushed(d, j, c))
            && (HotDirty(d', j, c) <==> j != k && HotDirty(d, j, c))
            && (ColdAnswers(d', j, c) <==> ColdAnswers(d, j, c))
  {
    hide Answers, AnswersFlushed, StoreRefinement.NotPutSince;
  }

  lemma TieredOk(d: Disk, k: Key)
    requires DiskOk(d) && k in d.hot
    ensures DiskOk(CopyOn(d, k)) && CopyOn(d, k).hot == d.hot && CopyOn(d, k).copied == Some(k)
    ensures DiskOk(DropOn(d, k)) && DropOn(d, k).hot.Keys == d.hot.Keys - {k} && DropOn(d, k).copied == None
  {
    SyncAnswers(d.hot[k], 0);
  }

  /** A crash of the disks loses no flushed block that was not stored again. */
  lemma CutIsAllowed(d: Disk, chain: string, a: Holdings, kept: set<int>, d': Disk)
    requires Abstracts(d, chain, a) && Does(d, chain, a.size, a.mode, Cut(kept), d') && DiskOk(d')
    ensures Can(a, Cut(kept))
  {
    hide DiskOk, HotAnswers, HotFlushed, HotDirty, ColdAnswers, KeyOf, Crashes, FilesOk;
    forall c | c in a.synced - a.dirty || c in kept
      ensures c in kept && c in a.hot
    {
      assert c >= 0 && BlockOk(d, chain, a, c);
      CrashedAnswers(d, d', KeyOf(chain, c, a.size), c);
    }
  }

  lemma CutBlock(d: Disk, chain: string, a: Holdings, kept: set<int>, d': Disk, b: nat)
    requires DiskOk(d) && DiskOk(d') && a.size > 0 && Crashes(d, d') && BlockOk(d, chain, a, b)
    requires b in kept <==> HotAnswers(d', KeyOf(chain, b, a.size), b)
    ensures BlockOk(d', chain, Apply(a, Cut(kept)), b)
  {
    hide DiskOk, HotAnswers, HotFlushed, HotDirty, ColdAnswers, KeyOf, Crashes;
    CrashedAnswers(d, d', KeyOf(chain, b, a.size), b);
  }

  lemma CutFiles(d: Disk, chain: string, a: Holdings, kept: set<int>, d': Disk)
    requires FilesOk(d, chain, a) && d'.hot.Keys == d.hot.Keys && NoneBelowZero(a) && forall b <- kept :: b >= 0
    requires d'.copied == None
    ensures FilesOk(d', chain, Apply(a, Cut(kept))) && NoneBelowZero(Apply(a, Cut(kept)))
    ensures CopiedOk(d', chain, Apply(a, Cut(kept)))
  {
    assert forall seg: nat :: Key(chain, seg) in d'.hot <==> Key(chain, seg) in d.hot;
  }

  lemma CutFollows(d: Disk, chain: string, a: Holdings, kept: set<int>, d': Disk)
    requires Abstracts(d, chain, a) && Does(d, chain, a.size, a.mode, Cut(kept), d')
    ensures Can(a, Cut(kept)) && Abstracts(d', chain, Apply(a, Cut(kept)))
  {
    CrashedOk(d, d');
    CutIsAllowed(d, chain, a, kept, d');
    CutFiles(d, chain, a, kept, d');
    hide DiskOk, HotAnswers, Can, KeyOf, Crashes, BlockOk, FilesOk, CopiedOk, NoneBelowZero;
    forall b: nat
      ensures BlockOk(d', chain, Apply(a, Cut(kept)), b)
    {
      CutBlock(d, chain, a, kept, d', b);
    }
  }

  lemma CrashedOk(d: Disk, d': Disk)
    requires DiskOk(d) && Crashes(d, d')
    ensures DiskOk(d') && d'.hot.Keys == d.hot.Keys && d'.copied == None
  {
    hide StoreRefinement.CanLose, AfterCut;
    forall k | k in d'.hot
      ensures FileOk(d'.hot[k]) && Flushed(d'.hot[k].file)
    {
      assert k in d.hot;
      var c :| StoreRefinement.CanLose(d.hot[k].file, c) && d'.hot[k] == AfterCut(d.hot[k], c);
      CutIsFlushed(d.hot[k], c);
    }
  }

  lemma CrashedAnswers(d: Disk, d': Disk, k: Key, b: nat)
    requires DiskOk(d) && DiskOk(d') && Crashes(d, d')
    ensures HotFlushed(d, k, b) && !HotDirty(d, k, b) ==> HotAnswers(d', k, b)
    ensures HotAnswers(d', k, b) ==> HotAnswers(d, k, b)
    ensures (HotFlushed(d', k, b) <==> HotAnswers(d', k, b)) && !HotDirty(d', k, b)
    ensures ColdAnswers(d', k, b) <==> ColdAnswers(d, k, b)
  {
    hide StoreRefinement.CanLose, AfterCut, Answers, AnswersFlushed, StoreRefinement.NotPutSince, FileOk;
    assert k in d'.hot <==> k in d.hot;
    if k in d.hot {
      var c :| StoreRefinement.CanLose(d.hot[k].file, c) && d'.hot[k] == AfterCut(d.hot[k], c);
      CutIsFlushed(d.hot[k], c);
      FlushedAnswers(d'.hot[k], b);
      if HotFlushed(d, k, b) && !HotDirty(d, k, b) {
        CutKeepsFlushed(d.hot[k], c, b);
      }
      if HotAnswers(d', k, b) {
        CutAddsNothing(d.hot[k], c, b);
      }
    }
  }

  /** The archive the pipeline reasons about follows the disks step by step, and a crash loses no more. */
  lemma StepFollows(d: Disk, chain: string, a: Holdings, op: Op, d': Disk)
    requires Abstracts(d, chain, a) && Valid(a) && Does(d, chain, a.size, a.mode, op, d')
    ensures Can(a, op) && Abstracts(d', chain, Apply(a, op))
  {
    hide Abstracts, PutOn, SyncWriter, DropOn, CopyOn, Crashes;
    match op {
      case Store(b) =>
        var payload :| d' == PutOn(d, KeyOf(chain, b, a.size), Record(b, payload));
        StoreFollows(d, chain, a, b, payload);
      case Flush => FlushFollows(d, chain, a);
      case Copy(seg) => CopyFollows(d, chain, a, seg);
      case Drop(seg) => DropFollows(d, chain, a, seg);
      case Cut(kept) => CutFollows(d, chain, a, kept, d');
    }
  }

  // ----- a crash that loses all it can ----------------------------------------------------------------

  /** The index is kept whole, and of the frames only those flushed. */
  function Worst(f: File): StoreRefinement.Cut
    requires f.durable <= |f.log|
  {
    StoreRefinement.Cut(End(f.log[..f.durable]), |IdxOf(f.log)|)
  }

  lemma WorstCut(f: SegFile)
    requires FileOk(f)
    ensures StoreRefinement.CanLose(f.file, Worst(f.file)) && AfterCut(f, Worst(f.file)).file.log == f.file.log
    ensures forall k: nat :: k < |f.file.log| ==>
              (k in AfterCut(f, Worst(f.file)).holes <==> k in f.holes || f.file.durable <= k)
  {
    hide Frame, Frames, SegmentCrash.EntryCount;
    var log, d, c := f.file.log, f.file.durable, Worst(f.file);
    PrefixBytes(log, d);
    StoreRefinement.WholeIndexNames(log);
    assert log[..|log|] == log;
    forall k: nat | k < |log|
      ensures End(log[..k]) + FrameLen(log[k]) > c.seg <==> d <= k
    {
      RecordStep(log, k);
      if d <= k {
        assert log[..k][..d] == log[..d];
        PrefixBytes(log[..k], d);
      } else {
        assert log[..d][..k + 1] == log[..k + 1];
        PrefixBytes(log[..d], k + 1);
      }
    }
  }

  lemma WorstAnswers(f: SegFile, number: nat)
    requires FileOk(f)
    ensures StoreRefinement.CanLose(f.file, Worst(f.file))
    ensures Answers(AfterCut(f, Worst(f.file)), number)
            <==> AnswersFlushed(f, number) && StoreRefinement.NotPutSince(f.file, number)
  {
    WorstCut(f);
    CutIsFlushed(f, Worst(f.file));
    var log, d := f.file.log, f.file.durable;
    hide AfterCut, StoreRefinement.CanLose, Worst, FileOk;
    if AnswersFlushed(f, number) && StoreRefinement.NotPutSince(f.file, number) {
      CutKeepsFlushed(f, Worst(f.file), number);
    }
    if Answers(AfterCut(f, Worst(f.file)), number) {
      var k :| IsLast(log, number, k) && k !in AfterCut(f, Worst(f.file)).holes;
      assert k < d && IsLast(log[..d], number, k);
    }
  }

  ghost function WorstDisk(d: Disk): Disk
    requires DiskOk(d)
  {
    Disk(map k | k in d.hot :: (WorstCut(d.hot[k]); AfterCut(d.hot[k], Worst(d.hot[k].file))), d.cold, None, None)
  }

  lemma WorstCrashes(d: Disk, k: Key, b: nat)
    requires DiskOk(d)
    ensures Crashes(d, WorstDisk(d))
    ensures HotAnswers(WorstDisk(d), k, b) <==> HotFlushed(d, k, b) && !HotDirty(d, k, b)
  {
    hide AfterCut, StoreRefinement.CanLose, Worst, Answers, AnswersFlushed, StoreRefinement.NotPutSince;
    forall j | j in d.hot
      ensures exists c :: StoreRefinement.CanLose(d.hot[j].file, c) && WorstDisk(d).hot[j] == AfterCut(d.hot[j], c)
    {
      WorstCut(d.hot[j]);
    }
    if k in d.hot {
      WorstAnswers(d.hot[k], b);
    }
  }

  /** A crash can lose every block stored since the last flush, flushed before or not. */
  lemma AllDirtyCanBeLost(d: Disk, chain: string, a: Holdings)
    requires Abstracts(d, chain, a)
    ensures Does(d, chain, a.size, a.mode, Cut(a.synced - a.dirty), WorstDisk(d))
  {
    hide DiskOk, WorstDisk, HotAnswers, HotFlushed, HotDirty, ColdAnswers, KeyOf, Crashes;
    WorstCrashes(d, Key(chain, 0), 0);
    forall b: nat
      ensures b in a.synced - a.dirty <==> HotAnswers(WorstDisk(d), KeyOf(chain, b, a.size), b)
    {
      assert BlockOk(d, chain, a, b);
      WorstCrashes(d, KeyOf(chain, b, a.size), b);
    }
  }

  // ----- whole runs -----------------------------------------------------------------------------------

  /** A run of the disks, one state per step, that does what the steps say. */
  ghost predicate DoesAll(run: seq<Disk>, chain: string, size: nat, mode: OnDigest, ops: seq<Op>)
    requires |run| == |ops| + 1 && size > 0
  {
    forall i :: 0 <= i < |ops| ==> Does(run[i], chain, size, mode, ops[i], run[i + 1])
  }

  lemma {:induction false} RunFollows(run: seq<Disk>, chain: string, a: Holdings, ops: seq<Op>)
    requires |run| == |ops| + 1 && Abstracts(run[0], chain, a) && DoesAll(run, chain, a.size, a.mode, ops) && Valid(a)
    ensures CanAll(a, ops) && Abstracts(run[|ops|], chain, AfterOps(a, ops)) && AfterOps(a, ops).size == a.size
    decreases |ops|
  {
    assert a.size > 0 && (ops != [] ==> Does(run[0], chain, a.size, a.mode, ops[0], run[1]));
    hide Abstracts, Does, Apply, Can, Valid;
    if ops != [] {
      StepFollows(run[0], chain, a, ops[0], run[1]);
      ApplyValid(a, ops[0]);
      RunFollows(run[1..], chain, Apply(a, ops[0]), ops[1..]);
    }
  }

  /**
   * After any run of puts, flushes, passes and power losses, a read of the disks answers a block if and
   * only if nothing took it away since it was last stored, or since the beginning if it was answered then.
   */
  lemma AnsweredIff(run: seq<Disk>, chain: string, a: Holdings, ops: seq<Op>, b: nat)
    requires |run| == |ops| + 1 && Abstracts(run[0], chain, a) && DoesAll(run, chain, a.size, a.mode, ops) && Valid(a)
    ensures Answered(run[|ops|], KeyOf(chain, b, a.size), b)
            <==> (Answered(run[0], KeyOf(chain, b, a.size), b) && !Taken(a, ops, b))
                 || exists i: nat :: StoredFor(a, ops, b, i)
  {
    hide Abstracts, Valid, Answered, KeyOf, Taken, StoredFor, DoesAll;
    AnsweredIsReadable(run[0], chain, a, b);
    RunFollows(run, chain, a, ops);
    AnsweredIsReadable(run[|ops|], chain, AfterOps(a, ops), b);
    ReadableIff(a, ops, b);
  }

  /** From disks with nothing on them. */
  lemma NothingIsEmpty(chain: string, size: nat, mode: OnDigest)
    requires size > 0
    ensures Abstracts(Disk(map[], map[], None, None), chain, Empty(size, mode)) && Valid(Empty(size, mode))
  {
  }
}
