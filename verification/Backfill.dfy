/**
 * The backfill as a protocol: any number of workers, the digest and the tiering pass interleave
 * one database statement or one store call at a time, leases run out, and processes crash.
 */
module Backfill {
  import opened BlockArchive
  import opened Extrema
  import opened Queue
  import opened Wrappers

  const I64_MAX := 0x7FFF_FFFF_FFFF_FFFF
  const UNBOUNDED_LAG := 0xFFFF_FFFF_FFFF_FFFF
  const MAX_CHUNK_ATTEMPTS := 5

  // ----- the brake ------------------------------------------------------------------------------

  /** The configured lag reinterpreted as a signed integer. */
  function SignedLag(lag: nat): int {
    if lag <= I64_MAX then lag else lag - 0x1_0000_0000_0000_0000
  }

  /** The highest block a chunk may end at, or no limit. */
  function BrakeCeiling(lag: nat, digested: int): Option<int> {
    if lag == UNBOUNDED_LAG then None else Some(Least(digested + SignedLag(lag), I64_MAX))
  }

  /** Blocks per lease. */
  function EffectiveChunkSize(chunkSize: nat, lag: nat): nat {
    if lag == UNBOUNDED_LAG then Greatest(chunkSize, 1) else Greatest(Least(chunkSize, lag), 1)
  }

  /** Blocks per lease: as many as configured and no more than the lag, but one at least. */
  lemma EffectiveChunkSizeIs(chunkSize: nat, lag: nat, n: nat)
    requires n >= 1
    ensures n <= EffectiveChunkSize(chunkSize, lag)
            <==> n == 1 || (n <= chunkSize && (lag == 0xFFFF_FFFF_FFFF_FFFF || n <= lag))
  {
  }

  /** With no lag configured nothing is held back; with one, a chunk is if and only if it ends beyond it. */
  lemma BrakeHoldsIff(lag: nat, digested: int, row: Row)
    requires lag <= 0xFFFF_FFFF_FFFF_FFFF && row.state == Pending && row.to <= 0x7FFF_FFFF_FFFF_FFFF
    ensures Claimable(row, BrakeCeiling(lag, digested))
            <==> || lag == 0xFFFF_FFFF_FFFF_FFFF
                 || row.to <= digested + if lag < 0x8000_0000_0000_0000 then lag else lag - 0x1_0000_0000_0000_0000
  {
  }

  /**
   * A chunk of the effective size that starts right after the digested block fits under the
   * ceiling if and only if the lag is not zero and does not turn negative as a signed integer.
   */
  lemma NextChunkFitsIff(lag: nat, chunkSize: nat, digested: int)
    requires lag < UNBOUNDED_LAG
    requires -1 <= digested && digested + EffectiveChunkSize(chunkSize, lag) <= I64_MAX
    ensures digested + EffectiveChunkSize(chunkSize, lag) <= BrakeCeiling(lag, digested).value
            <==> 1 <= lag <= I64_MAX
  {
  }

  // ----- states ---------------------------------------------------------------------------------

  /** Where one worker's loop stands. */
  datatype Worker =
    | Idle
    | Braked(ceiling: Option<int>)
    /** Archiving a claimed chunk; `next` is the next block to store. */
    | Archiving(from: int, to: int, attempts: nat, next: int)
    | Stored(from: int, to: int, attempts: nat)
    | Synced(from: int, to: int, attempts: nat)
    /** The chunk is marked done; the done prefix is still to be read. */
    | Completed
    | Through(end: Option<int>)
    /** An error came back; the chunk is still to be released or failed. */
    | Broken(from: int, to: int, attempts: nat)

  /** Whether an explicit `--from` is between its two statements, or its process died there. */
  datatype Phase = Ready | Resetting | Interrupted

  datatype State = State(
    phase: Phase,
    q: Table, marks: Watermarks,
    /** The range queued so far, and the last block of the current backfill. */
    lo: int, hi: int, end: int,
    store: Holdings,
    workers: map<nat, Worker>,
    /** The fetch watermark the digest last read; the digest watermark a tiering pass read. */
    ready: int, tierBound: int)

  datatype Step =
    /** A backfill over `from..=to` starts: its chunks are seeded. */
    | Start(from: int, to: int, size: int)
    | ReadBrake(w: nat)
    | Claim(w: nat, from: int, expires: int)
    | ClaimNone(w: nat)
    | Reclaim(now: int)
    | ArchiveBlock(w: nat)
    | ArchiveFails(w: nat)
    | FinishArchive(w: nat)
    | Sync(w: nat)
    | Complete(w: nat)
    | ReadDoneEnd(w: nat, end: Option<int>)
    | Advance(w: nat)
    | GiveBack(w: nat)
    | DigestRead
    | DigestCommit(to: int)
    | TierRead
    /** A tiering pass copies a segment to the cold tier, and drops the hot one: that, or one it deletes. */
    | CopySegment(seg: int)
    | DropSegment(seg: int)
    | TierAdvance(to: int)
    /** Every process dies; of the blocks stored since the last flush, `kept` decides which are still read. */
    | Crash(kept: set<int>)
    /** `--from`, with no stage running: the marks move back, and then the queue is dropped. */
    | ResetWatermarks(to: int)
    | ResetChunks

  ghost predicate AllIdle(s: State) {
    forall w <- s.workers :: s.workers[w].Idle?
  }

  function LastToArchive(s: State, w: Worker): int
    requires w.Archiving?
  {
    Least(w.to, s.end)
  }

  /** Whatever comes next after a reset that was cut short begins where the digest watermark says. */
  predicate InPhase(phase: Phase, a: Step) {
    match phase
    case Ready => !a.ResetChunks?
    case Resetting => a.ResetChunks? || a.Crash?
    case Interrupted => a.Start? || a.ResetWatermarks? || a.Crash?
  }

  ghost predicate AllReadable(a: Holdings, from: int, to: int) {
    forall b :: from <= b <= to ==> Readable(a, b)
  }

  ghost predicate Enabled(s: State, a: Step, lag: nat) {
    InPhase(s.phase, a) &&
    match a
    case Start(from, to, size) =>
      // Anywhere in the queued range, on the old tiling or off it, and to any end.
      AllIdle(s) && size >= 1 && from <= to
      && if s.phase.Ready? then s.lo <= from <= s.hi + 1 else from == s.marks.digest + 1
    case ReadBrake(w) => w in s.workers && s.workers[w].Idle?
    // A claim takes the lowest chunk it can lock, so it may pass over one another claim is taking, and
    // may come back with none.
    case Claim(w, from, _) =>
      w in s.workers && s.workers[w].Braked? && from in s.q && Claimable(s.q[from], s.workers[w].ceiling)
    case ClaimNone(w) => w in s.workers && s.workers[w].Braked?
    case Reclaim(_) => true
    case ArchiveBlock(w) =>
      w in s.workers && s.workers[w].Archiving? && s.workers[w].next <= LastToArchive(s, s.workers[w])
    case ArchiveFails(w) => w in s.workers && s.workers[w].Archiving?
    case FinishArchive(w) =>
      w in s.workers && s.workers[w].Archiving? && s.workers[w].next > LastToArchive(s, s.workers[w])
    case Sync(w) => w in s.workers && s.workers[w].Stored?
    case Complete(w) => w in s.workers && s.workers[w].Synced?
    case ReadDoneEnd(w, end) => w in s.workers && s.workers[w].Completed? && IsDoneEnd(s.q, end)
    case Advance(w) => w in s.workers && s.workers[w].Through?
    case GiveBack(w) => w in s.workers && s.workers[w].Broken?
    case DigestRead => true
    case DigestCommit(to) => s.marks.digest < to <= s.ready && AllReadable(s.store, s.marks.digest + 1, to)
    case TierRead => true
    case CopySegment(seg) => Can(s.store, Copy(seg)) && SegmentLast(seg, s.store.size) <= s.tierBound
    case DropSegment(seg) => Can(s.store, Drop(seg)) && SegmentLast(seg, s.store.size) <= s.tierBound
    case TierAdvance(to) => to <= s.tierBound
    case Crash(kept) => Can(s.store, Cut(kept))
    case ResetWatermarks(_) => AllIdle(s) && s.store.copied == None
    case ResetChunks => true
  }

  function Stopped(workers: map<nat, Worker>): map<nat, Worker> {
    map w | w in workers :: Idle
  }

  /** The last block a chunk was queued for. */
  function Top(s: State): int {
    if s.phase.Interrupted? && s.q == map[] then s.marks.digest else s.hi
  }

  /** Where the promise begins after a restart. */
  function NewLo(s: State, from: int): int {
    if s.phase.Ready? then s.lo else from
  }

  function Do(s: State, a: Step, lag: nat): State
    requires Enabled(s, a, lag)
  {
    match a
    case Start(from, to, size) =>
      s.(phase := Ready, q := Seeded(s.q, from, to, size), lo := NewLo(s, from),
         hi := Greatest(Top(s), to), end := to)
    case ReadBrake(w) => s.(workers := s.workers[w := Braked(BrakeCeiling(lag, s.marks.digest))])
    case Claim(w, from, expires) =>
      var q := Claimed(s.q, from, expires);
      s.(q := q, workers := s.workers[w := Archiving(from, q[from].to, q[from].attempts, from)])
    case ClaimNone(w) => s.(workers := s.workers[w := Idle])
    case Reclaim(now) => s.(q := Reclaimed(s.q, now))
    case ArchiveBlock(w) =>
      var next := s.workers[w].next;
      s.(store := Apply(s.store, Store(next)), workers := s.workers[w := s.workers[w].(next := next + 1)])
    case ArchiveFails(w) =>
      var p := s.workers[w];
      s.(workers := s.workers[w := Broken(p.from, p.to, p.attempts)])
    case FinishArchive(w) =>
      var p := s.workers[w];
      s.(workers := s.workers[w := Stored(p.from, p.to, p.attempts)])
    case Sync(w) =>
      var p := s.workers[w];
      s.(store := Apply(s.store, Flush), workers := s.workers[w := Synced(p.from, p.to, p.attempts)])
    case Complete(w) =>
      s.(q := WithState(s.q, s.workers[w].from, Done), workers := s.workers[w := Completed])
    case ReadDoneEnd(w, end) => s.(workers := s.workers[w := Through(end)])
    case Advance(w) =>
      var end := s.workers[w].end;
      s.(marks := if end.Some? then s.marks.(fetch := Greatest(s.marks.fetch, end.value)) else s.marks,
         workers := s.workers[w := Idle])
    case GiveBack(w) =>
      var p := s.workers[w];
      s.(q := WithState(s.q, p.from, if p.attempts >= MAX_CHUNK_ATTEMPTS then Failed else Pending),
         workers := s.workers[w := Idle])
    case DigestRead => s.(ready := s.marks.fetch)
    case DigestCommit(to) => s.(marks := s.marks.(digest := Greatest(s.marks.digest, to)))
    case TierRead => s.(tierBound := s.marks.digest)
    case CopySegment(seg) => s.(store := Apply(s.store, Copy(seg)))
    case DropSegment(seg) => s.(store := Apply(s.store, Drop(seg)))
    case TierAdvance(to) => s.(marks := s.marks.(archive := Greatest(s.marks.archive, to)))
    case Crash(kept) =>
      s.(phase := if s.phase.Resetting? then Interrupted else s.phase,
         store := Apply(s.store, Cut(kept)), workers := Stopped(s.workers),
         ready := s.marks.digest, tierBound := s.marks.archive)
    case ResetWatermarks(to) =>
      s.(phase := Resetting, marks := ResetMarks(Some(s.marks), to), ready := to, tierBound := Least(s.marks.archive, to))
    case ResetChunks =>
      s.(phase := Ready, q := map[], lo := s.marks.fetch + 1, hi := s.marks.fetch, end := s.marks.fetch)
  }

  /** A chain that starts at `lo`, with nothing archived and its workers waiting. */
  ghost predicate Init(s: State) {
    && s.phase.Ready? && s.q == map[] && s.marks == InitialMarks(s.lo - 1)
    && s.hi == s.end == s.lo - 1
    && s.store.size > 0 && s.store == Empty(s.store.size, s.store.mode)
    && AllIdle(s)
    && s.ready == s.marks.digest && s.tierBound == s.marks.archive
  }

  /** A finite run of steps from `s`, and where it ends. */
  ghost predicate IsRun(s: State, steps: seq<Step>, lag: nat)
    decreases |steps|
  {
    steps == []
    || (Enabled(s, steps[0], lag) && IsRun(Do(s, steps[0], lag), steps[1..], lag))
  }

  ghost function After(s: State, steps: seq<Step>, lag: nat): State
    requires IsRun(s, steps, lag)
    decreases |steps|
  {
    if steps == [] then s else After(Do(s, steps[0], lag), steps[1..], lag)
  }

  lemma RunsTo(s: State, a: Step, rest: seq<Step>, t: State, lag: nat)
    requires Enabled(s, a, lag) && IsRun(Do(s, a, lag), rest, lag) && After(Do(s, a, lag), rest, lag) == t
    ensures IsRun(s, [a] + rest, lag) && After(s, [a] + rest, lag) == t
  {
    assert ([a] + rest)[1..] == rest;
  }

  lemma NoSteps(s: State, lag: nat)
    ensures IsRun(s, [], lag) && After(s, [], lag) == s
  {
  }

  // ----- safety ---------------------------------------------------------------------------------

  /** Above the digest watermark, and done or already advertised. */
  ghost predicate Promised(s: State, b: int) {
    && b > s.marks.digest
    && ((exists f <- s.q :: s.q[f].state == Done && f <= b <= s.q[f].to)
        || (s.phase.Ready? && s.lo <= b <= s.marks.fetch))
  }

  /** Or about to be advertised by a worker that has read the done prefix. */
  ghost predicate ToAdvertise(s: State, b: int) {
    b > s.marks.digest && exists w <- s.workers :: s.workers[w].Through? && ReachesTo(s, s.workers[w].end, b)
  }

  predicate ReachesTo(s: State, end: Option<int>, b: int) {
    end.Some? && s.lo <= b <= end.value
  }

  ghost predicate OpenEndBy(q: Table, end: int) {
    forall f <- q :: q[f].state != Done ==> q[f].to <= end
  }

  /** A block is covered already, or it gets a tile of its own. */
  ghost predicate Gets(q: Table, from: int, to: int, size: int, b: int)
    requires size >= 1
  {
    Covers(q, b) || (from <= b <= to && TileStart(from, size, b) !in q)
  }

  ghost predicate NoGap(q: Table, from: int, to: int, size: int, lo: int, hi: int)
    requires size >= 1
  {
    forall b :: lo <= b <= hi ==> Gets(q, from, to, size, b)
  }

  /**
   * What the promises ask of a step. A restart takes no clipped chunk for a whole tile, leaves no gap,
   * and stops at no earlier block than some open chunk. A block is not stored beside a cold-only copy
   * that promised blocks are read from. No promised block was stored again since the flush before a
   * crash; and in the middle of a reset, those above the mark are still on disk.
   */
  ghost predicate Careful(s: State, a: Step) {
    match a
    case Start(from, to, size) =>
      OpenEndBy(s.q, to) && size >= 1 && NoGap(s.q, from, to, size, NewLo(s, from), Greatest(Top(s), to))
    case ArchiveBlock(w) =>
      w in s.workers && s.workers[w].Archiving? ==>
        forall b :: Promised(s, b) || ToAdvertise(s, b) ==> !Endangers(s.store, Store(s.workers[w].next), b)
    case Crash(_) => forall b :: Promised(s, b) ==> OnDisk(s.store, b) && b !in s.store.dirty
    case _ => true
  }

  ghost predicate AllCareful(s: State, steps: seq<Step>, lag: nat)
    requires IsRun(s, steps, lag)
    decreases |steps|
  {
    steps == [] || (Careful(s, steps[0]) && AllCareful(Do(s, steps[0], lag), steps[1..], lag))
  }

  ghost predicate AllHeld(s: State, from: int, to: int) {
    forall b :: from <= b <= to ==> Held(s.store, s.marks.digest, b)
  }

  ghost predicate AllFirm(s: State, from: int, to: int) {
    forall b :: from <= b <= to ==> Firm(s.store, s.marks.digest, b)
  }

  /** What a worker's position promises about the archive and the queue. */
  ghost predicate WorkerOk(s: State, p: Worker) {
    match p
    case Archiving(from, to, _, next) => ChunkOk(s, from, to) && from <= next <= to + 1 && AllHeld(s, from, next - 1)
    case Stored(from, to, _) => ChunkOk(s, from, to) && AllHeld(s, from, to)
    case Synced(from, to, _) => ChunkOk(s, from, to) && AllFirm(s, from, to)
    case Broken(from, to, _) => ChunkOk(s, from, to)
    case Through(Some(end)) => end <= s.hi && forall b :: s.lo <= b <= end ==> Safe(s.store, s.marks.digest, b)
    case _ => true
  }

  ghost predicate ChunkOk(s: State, from: int, to: int) {
    from in s.q && s.q[from].to == to <= s.end
  }

  ghost predicate RowsOk(s: State) {
    EndBy(s.q, s.hi) && OpenEndBy(s.q, s.end) && (s.phase.Ready? ==> Covered(s.q, s.lo, s.hi))
  }

  predicate InOrder(s: State) {
    Ordered(s.marks) && s.ready <= s.marks.fetch && s.tierBound <= s.marks.digest
  }

  ghost predicate MarksOk(s: State) {
    && InOrder(s)
    && if s.phase.Ready?
       then s.lo - 1 <= s.marks.digest && s.marks.fetch <= s.hi
            && forall b :: s.lo <= b <= s.marks.fetch ==> b in s.store.ever
       else s.marks.fetch == s.marks.digest
  }

  ghost predicate PromisesOk(s: State) {
    forall b :: Promised(s, b) ==> OnDisk(s.store, b)
  }

  ghost predicate WorkersOk(s: State) {
    if s.phase.Ready? then forall w <- s.workers :: WorkerOk(s, s.workers[w]) else AllIdle(s)
  }

  ghost predicate Inv(s: State) {
    Valid(s.store) && RowsOk(s) && MarksOk(s) && (s.phase.Resetting? || PromisesOk(s)) && WorkersOk(s)
  }

  lemma InitInv(s: State)
    requires Init(s)
    ensures Inv(s)
  {
  }

  /** What a step does to the archive, if anything. */
  function ArchiveOp(s: State, a: Step): Option<Op> {
    match a
    case ArchiveBlock(w) =>
      if w in s.workers && s.workers[w].Archiving? then Some(Store(s.workers[w].next)) else None
    case Sync(_) => Some(Flush)
    case CopySegment(seg) => Some(Copy(seg))
    case DropSegment(seg) => Some(Drop(seg))
    case Crash(kept) => Some(Cut(kept))
    case _ => None
  }

  lemma StepOnArchive(s: State, a: Step, lag: nat)
    requires Enabled(s, a, lag)
    ensures var op := ArchiveOp(s, a);
            Do(s, a, lag).store == (if op.Some? then Apply(s.store, op.value) else s.store)
            && (op.Some? ==> Can(s.store, op.value))
  {
    hide Apply, Seeded, Reclaimed, Claimed, WithState, BrakeCeiling, IsDoneEnd, AllReadable, ResetMarks;
  }

  /** Steps that leave the promise where it is. */
  predicate Ordinary(s: State, a: Step) {
    s.phase.Ready? && !a.Start? && !a.ResetWatermarks?
  }

  ghost predicate Endangered(s: State, a: Step, b: int) {
    ArchiveOp(s, a).Some? && Endangers(s.store, ArchiveOp(s, a).value, b)
  }

  /** What is safe stays safe unless the step endangers it, and what a live worker holds stays held. */
  lemma StepKeepsBlock(s: State, a: Step, lag: nat, b: int)
    requires Valid(s.store) && s.tierBound <= s.marks.digest && Enabled(s, a, lag) && Ordinary(s, a)
    ensures var t, mark := Do(s, a, lag), s.marks.digest;
            && mark <= t.marks.digest
            && (Safe(s.store, mark, b) && !Endangered(s, a, b) ==> Safe(t.store, t.marks.digest, b))
            && (!a.Crash? && Held(s.store, mark, b) ==> Held(t.store, t.marks.digest, b))
            && (!a.Crash? && Firm(s.store, mark, b) ==> Firm(t.store, t.marks.digest, b))
            && (a.Sync? && Held(s.store, mark, b) ==> Firm(t.store, t.marks.digest, b))
  {
    hide Apply, Can, Valid, Endangers, OnDisk, AllReadable, Seeded, Reclaimed, Claimed, WithState, BrakeCeiling, IsDoneEnd, ResetMarks;
    var t, op := Do(s, a, lag), ArchiveOp(s, a);
    StepOnArchive(s, a, lag);
    assert s.marks.digest <= t.marks.digest;
    if op.Some? {
      assert t.marks == s.marks;
      if Safe(s.store, s.marks.digest, b) {
        StaysSafeIff(s.store, op.value, s.marks.digest, b);
      }
      if !a.Crash? && Held(s.store, s.marks.digest, b) {
        StaysHeld(s.store, op.value, s.marks.digest, b);
      }
      if !a.Crash? && Firm(s.store, s.marks.digest, b) {
        FirmIsHeld(s.store, s.marks.digest, b);
        StaysHeld(s.store, op.value, s.marks.digest, b);
      }
    }
  }

  lemma FirmIsHeld(a: Holdings, mark: int, b: int)
    requires Valid(a) && Firm(a, mark, b)
    ensures Held(a, mark, b) && Safe(a, mark, b)
  {
  }

  lemma StepKeepsStore(s: State, a: Step, lag: nat)
    requires Valid(s.store) && Enabled(s, a, lag)
    ensures Valid(Do(s, a, lag).store) && s.store.ever <= Do(s, a, lag).store.ever
  {
    hide Do, Enabled, Apply, Can, Valid;
    StepOnArchive(s, a, lag);
    var op := ArchiveOp(s, a);
    if op.Some? {
      ApplyValid(s.store, op.value);
    }
  }

  lemma StepInv(s: State, a: Step, lag: nat)
    requires Inv(s) && Enabled(s, a, lag) && Careful(s, a)
    ensures Inv(Do(s, a, lag))
  {
    hide RowsOk, MarksOk, PromisesOk, WorkersOk, Do, Enabled, Careful;
    if Ordinary(s, a) {
      StepKeepsStore(s, a, lag);
      StepRowsOk(s, a, lag);
      StepMarksOk(s, a, lag);
      StepPromisesOk(s, a, lag);
      StepWorkersOk(s, a, lag);
    } else if a.Start? {
      StartInv(s, a.from, a.to, a.size, lag);
    } else {
      ResetInv(s, a, lag);
    }
  }

  predicate ChangesRows(a: Step) {
    a.Claim? || a.Complete? || a.GiveBack? || a.Reclaim?
  }

  lemma StepRowsOk(s: State, a: Step, lag: nat)
    requires Inv(s) && Enabled(s, a, lag) && Ordinary(s, a)
    ensures RowsOk(Do(s, a, lag)) && Do(s, a, lag).phase.Ready?
  {
    hide Safe, Held, Apply, Can, Valid, IsDoneEnd, Covered, Promised, AllReadable;
    var t := Do(s, a, lag);
    if ChangesRows(a) {
      assert a.GiveBack? || a.Complete? ==> WorkerOk(s, s.workers[a.w]);
      SameCover(s.q, t.q, s.lo, s.hi);
    } else {
      assert t.q == s.q;
    }
  }

  lemma StepMarksOk(s: State, a: Step, lag: nat)
    requires Inv(s) && Enabled(s, a, lag) && Ordinary(s, a)
    ensures MarksOk(Do(s, a, lag))
  {
    StepKeepsStore(s, a, lag);
    if a.Advance? {
      AdvanceMarksOk(s, a.w, lag);
    } else {
      hide Safe, Held, Apply, Can, Valid, IsDoneEnd, Covered, WorkerOk, RowsOk, Promised, AllReadable;
      assert Do(s, a, lag).marks.fetch == s.marks.fetch;
    }
  }

  /** Advancing advertises only blocks that have been on disk. */
  lemma AdvanceMarksOk(s: State, w: nat, lag: nat)
    requires Inv(s) && Enabled(s, Advance(w), lag) && s.phase.Ready?
    ensures MarksOk(Do(s, Advance(w), lag))
  {
    hide RowsOk, IsDoneEnd, Covered, Promised;
    var end := s.workers[w].end;
    assert WorkerOk(s, s.workers[w]);
    if end.Some? {
      forall b | s.lo <= b <= end.value
        ensures b in s.store.ever
      {
        assert Safe(s.store, s.marks.digest, b);
      }
    }
  }

  /** What a step newly promises was held to it before, by the worker that completes or advances. */
  lemma PromisedWasSafe(s: State, a: Step, lag: nat, b: int)
    requires Inv(s) && Enabled(s, a, lag) && Ordinary(s, a) && Promised(Do(s, a, lag), b)
    ensures Safe(s.store, s.marks.digest, b) && (a.Crash? ==> Promised(s, b))
    ensures !a.Complete? ==> Promised(s, b) || ToAdvertise(s, b)
    ensures Promised(s, b) || ToAdvertise(s, b) || b in s.store.synced
  {
    hide Apply, Can, Seeded, IsDoneEnd, BrakeCeiling, AllReadable, OnDisk, AllHeld;
    var t := Do(s, a, lag);
    assert s.marks.digest <= t.marks.digest;
    if !Promised(s, b) {
      if a.Complete? {
        assert WorkerOk(s, s.workers[a.w]);
        FirmIsHeld(s.store, s.marks.digest, b);
      } else {
        SameDoneRows(s, a, lag);
        assert a.Advance? && ReachesTo(s, s.workers[a.w].end, b);
        assert WorkerOk(s, s.workers[a.w]);
      }
    }
  }

  lemma SameDoneRows(s: State, a: Step, lag: nat)
    requires Enabled(s, a, lag) && Ordinary(s, a) && !a.Complete?
    ensures forall f <- Do(s, a, lag).q :: Do(s, a, lag).q[f].state == Done ==> f in s.q && s.q[f] == Do(s, a, lag).q[f]
  {
    hide Apply, Can, Seeded, IsDoneEnd, BrakeCeiling, AllReadable;
  }

  lemma StepPromisesOk(s: State, a: Step, lag: nat)
    requires Inv(s) && Enabled(s, a, lag) && Ordinary(s, a) && Careful(s, a)
    ensures PromisesOk(Do(s, a, lag))
  {
    var t := Do(s, a, lag);
    forall b | Promised(t, b)
      ensures OnDisk(t.store, b)
    {
      hide Do, Enabled, RowsOk, WorkersOk, PromisesOk, OnDisk, Apply, Can, Valid;
      PromisedWasSafe(s, a, lag, b);
      NotEndangered(s, a, lag, b);
      StepKeepsBlock(s, a, lag, b);
    }
  }

  lemma NotEndangered(s: State, a: Step, lag: nat, b: int)
    requires Enabled(s, a, lag) && Careful(s, a) && (a.Complete? || Promised(s, b) || (ToAdvertise(s, b) && !a.Crash?))
    ensures !Endangered(s, a, b)
  {
    hide Promised, ToAdvertise, IsDoneEnd, AllReadable, TailClipped;
  }

  lemma StepWorkersOk(s: State, a: Step, lag: nat)
    requires Inv(s) && Enabled(s, a, lag) && Ordinary(s, a) && Careful(s, a)
    ensures WorkersOk(Do(s, a, lag))
  {
    var t := Do(s, a, lag);
    StepKeepsChunks(s, a, lag);
    forall w | w in t.workers
      ensures WorkerOk(t, t.workers[w])
    {
      if !a.Crash? && t.workers[w] == s.workers[w] {
        SameWorkerOk(s, a, w, lag);
      } else {
        MovedWorkerOk(s, a, w, lag);
      }
    }
  }

  lemma StepKeepsChunks(s: State, a: Step, lag: nat)
    requires Enabled(s, a, lag) && Ordinary(s, a)
    ensures var t := Do(s, a, lag);
            && t.phase.Ready? && t.lo == s.lo && t.hi == s.hi && t.end == s.end
            && (forall f <- s.q :: f in t.q && t.q[f].to == s.q[f].to)
            && t.workers.Keys == s.workers.Keys
  {
    hide Apply, Can, IsDoneEnd, BrakeCeiling, Seeded, AllReadable;
  }

  /** The promises of a worker that did not move. */
  lemma SameWorkerOk(s: State, a: Step, w: nat, lag: nat)
    requires Inv(s) && Enabled(s, a, lag) && Ordinary(s, a) && Careful(s, a) && !a.Crash?
    requires w in s.workers && w in Do(s, a, lag).workers && Do(s, a, lag).workers[w] == s.workers[w]
    ensures WorkerOk(Do(s, a, lag), s.workers[w])
  {
    var t := Do(s, a, lag);
    assert WorkerOk(s, s.workers[w]);
    StepKeepsChunks(s, a, lag);
    hide Do, Enabled, RowsOk, WorkersOk, PromisesOk, OnDisk, Apply, Can, Valid, Safe, Held, Firm, Careful, Endangered;
    forall b
      ensures Held(s.store, s.marks.digest, b) ==> Held(t.store, t.marks.digest, b)
      ensures Firm(s.store, s.marks.digest, b) ==> Firm(t.store, t.marks.digest, b)
      ensures s.workers[w].Through? && ReachesTo(s, s.workers[w].end, b) && Safe(s.store, s.marks.digest, b) ==>
                Safe(t.store, t.marks.digest, b)
    {
      StepKeepsBlock(s, a, lag, b);
      if s.workers[w].Through? && ReachesTo(s, s.workers[w].end, b) {
        if b > s.marks.digest {
          assert ToAdvertise(s, b);
          NotEndangered(s, a, lag, b);
        } else {
          BelowIsSafe(t.store, t.marks.digest, b);
        }
      }
    }
  }

  lemma BelowIsSafe(a: Holdings, mark: int, b: int)
    requires b <= mark
    ensures Safe(a, mark, b)
  {
  }

  lemma MovedWorkerOk(s: State, a: Step, w: nat, lag: nat)
    requires Inv(s) && Enabled(s, a, lag) && Ordinary(s, a) && w in s.workers
    requires a.Crash? || Do(s, a, lag).workers[w] != s.workers[w]
    ensures w in Do(s, a, lag).workers && WorkerOk(Do(s, a, lag), Do(s, a, lag).workers[w])
  {
    var t := Do(s, a, lag);
    assert WorkerOk(s, s.workers[w]);
    if a.ReadDoneEnd? {
      if a.end.Some? {
        DoneEndIsSafe(s, a.end);
      }
    } else if a.Claim? {
      assert s.q[a.from].to <= s.end && a.from <= s.q[a.from].to;
    } else {
      StepKeepsChunks(s, a, lag);
      forall b {
        StepKeepsBlock(s, a, lag, b);
      }
      if a.ArchiveBlock? {
        assert Held(t.store, t.marks.digest, s.workers[w].next);
      }
      hide Safe, Held, Firm, Can, Valid, IsDoneEnd, RowsOk, MarksOk, PromisesOk, Covered, AllReadable;
    }
  }

  lemma DoneEndIsSafe(s: State, end: Option<int>)
    requires RowsOk(s) && PromisesOk(s) && s.phase.Ready? && IsDoneEnd(s.q, end) && end.Some?
    ensures end.value <= s.hi && forall b :: s.lo <= b <= end.value ==> Safe(s.store, s.marks.digest, b)
    ensures forall b :: s.lo <= b <= end.value && b > s.marks.digest ==> Promised(s, b)
  {
    hide OnDisk;
    var f :| f in s.q && InDonePrefix(s.q, f) && s.q[f].to == end.value;
    forall b | s.lo <= b <= end.value
      ensures Safe(s.store, s.marks.digest, b) && (b > s.marks.digest ==> Promised(s, b))
    {
      DonePrefixHasNoHole(s.q, s.lo, s.hi, end.value, b);
    }
  }

  /** The two statements of a reset, and a crash between them. */
  lemma ResetInv(s: State, a: Step, lag: nat)
    requires Inv(s) && Enabled(s, a, lag) && Careful(s, a) && !Ordinary(s, a) && !a.Start?
    ensures Inv(Do(s, a, lag))
  {
    StepKeepsStore(s, a, lag);
    hide IsDoneEnd, TailClipped, Seeded, Reclaimed, Claimed, WithState, BrakeCeiling, AllReadable, Valid;
    if a.ResetChunks? {
      assert Covered(map[], s.marks.fetch + 1, s.marks.fetch);
    } else if a.Crash? {
      forall b | Promised(Do(s, a, lag), b)
        ensures OnDisk(Do(s, a, lag).store, b)
      {
        assert Promised(s, b);
      }
    }
  }

  // ----- exactly which restarts, stores and crashes keep the promise ------------------------------------

  /** A restart keeps it if and only if it is careful. */
  lemma StartKeepsInvIff(s: State, from: int, to: int, size: int, lag: nat)
    requires Inv(s) && Enabled(s, Start(from, to, size), lag)
    ensures Inv(Do(s, Start(from, to, size), lag)) <==> Careful(s, Start(from, to, size))
  {
    if Careful(s, Start(from, to, size)) {
      StartInv(s, from, to, size, lag);
    } else {
      SeedCoverIs(s, from, to, size, lag);
      SeedOnlyAdds(s.q, from, to, size);
      hide Covered, Seeded, Promised, Valid, NoGap;
    }
  }

  /** The blocks from the restart on are covered if and only if nothing is skipped. */
  lemma SeedCoverIs(s: State, from: int, to: int, size: int, lag: nat)
    requires Inv(s) && Enabled(s, Start(from, to, size), lag)
    ensures var t := Do(s, Start(from, to, size), lag);
            && EndBy(t.q, t.hi) && t.lo <= t.hi + 1
            && (Covered(t.q, t.lo, t.hi) <==> NoGap(s.q, from, to, size, t.lo, t.hi))
  {
    hide Promised, Valid, WorkersOk, MarksOk, PromisesOk, Seeded, IsDoneEnd, BrakeCeiling, AllReadable, Covers;
    SeedAddsPending(s.q, from, to, size);
    SeedOnlyAdds(s.q, from, to, size);
    forall b
      ensures Covers(Seeded(s.q, from, to, size), b) <==> Gets(s.q, from, to, size, b)
    {
      SeedCoversBlockIff(s.q, from, to, size, b);
    }
  }

  /** Short of a reset, that is: if and only if the tail of the queue is not taken for a whole tile. */
  lemma NoGapIsNotClipped(s: State, from: int, to: int, size: int, lag: nat)
    requires Inv(s) && s.phase.Ready? && Enabled(s, Start(from, to, size), lag)
    ensures NoGap(s.q, from, to, size, s.lo, Greatest(s.hi, to)) <==> !TailClipped(s.q, s.hi, from, to, size)
  {
    hide TailClipped, NoGap, Seeded, PromisesOk, WorkersOk, MarksOk;
    SeedCoverIs(s, from, to, size, lag);
    SeedCoversIff(s.q, s.lo, s.hi, from, to, size);
  }

  lemma StartInv(s: State, from: int, to: int, size: int, lag: nat)
    requires Inv(s) && Enabled(s, Start(from, to, size), lag) && Careful(s, Start(from, to, size))
    ensures Inv(Do(s, Start(from, to, size), lag))
  {
    SeedCoverIs(s, from, to, size, lag);
    SeedOnlyAdds(s.q, from, to, size);
    SeedAddsPending(s.q, from, to, size);
    hide OnDisk, Seeded, Covered, IsDoneEnd, NoGap, Valid, AllReadable;
    var t := Do(s, Start(from, to, size), lag);
    forall b | Promised(t, b)
      ensures Promised(s, b)
    {
      if f :| f in t.q && t.q[f].state == Done && f <= b <= t.q[f].to {
        assert f in s.q && s.q[f] == t.q[f];
      }
    }
  }

  lemma {:induction false} SeedAddsPending(q: Table, from: int, to: int, size: int)
    ensures forall f <- Seeded(q, from, to, size) ::
              f in q || (Seeded(q, from, to, size)[f].state == Pending && Seeded(q, from, to, size)[f].attempts == 0
                         && Seeded(q, from, to, size)[f].to - f < size && f <= Seeded(q, from, to, size)[f].to <= to)
    decreases (to - from)
  {
    if from <= to && size >= 1 {
      var next := if from in q then q else q[from := Row(TileEnd(from, to, size), Pending, 0, 0)];
      SeedAddsPending(next, TileEnd(from, to, size) + 1, to, size);
      SeedOnlyAdds(next, TileEnd(from, to, size) + 1, to, size);
    }
  }

  /** Storing a block keeps the promise if and only if it hides no promised block of a cold-only segment. */
  lemma StoreKeepsInvIff(s: State, w: nat, lag: nat)
    requires Inv(s) && Enabled(s, ArchiveBlock(w), lag)
    ensures Inv(Do(s, ArchiveBlock(w), lag)) <==> Careful(s, ArchiveBlock(w))
  {
    hide Inv, Do, Enabled, Promised, ToAdvertise, Endangers;
    if Careful(s, ArchiveBlock(w)) {
      StepInv(s, ArchiveBlock(w), lag);
    } else {
      var b :| (Promised(s, b) || ToAdvertise(s, b)) && Endangers(s.store, Store(s.workers[w].next), b);
      LostBreaksInv(s, w, lag, b);
    }
  }

  lemma LostBreaksInv(s: State, w: nat, lag: nat, b: int)
    requires Inv(s) && Enabled(s, ArchiveBlock(w), lag)
    requires (Promised(s, b) || ToAdvertise(s, b)) && Endangers(s.store, Store(s.workers[w].next), b)
    ensures !Inv(Do(s, ArchiveBlock(w), lag))
  {
    EndangeredIsLost(s, w, lag, b);
    var t := Do(s, ArchiveBlock(w), lag);
    hide Valid, RowsOk, MarksOk, IsDoneEnd, AllReadable, Apply, OnDisk, Endangers;
    if Promised(s, b) {
      assert Promised(t, b);
    } else {
      var v :| v in s.workers && s.workers[v].Through? && ReachesTo(s, s.workers[v].end, b);
      assert v in t.workers && t.workers[v] == s.workers[v];
    }
  }

  lemma EndangeredIsLost(s: State, w: nat, lag: nat, b: int)
    requires Inv(s) && Enabled(s, ArchiveBlock(w), lag)
    requires (Promised(s, b) || ToAdvertise(s, b)) && Endangers(s.store, Store(s.workers[w].next), b)
    ensures !Safe(Do(s, ArchiveBlock(w), lag).store, Do(s, ArchiveBlock(w), lag).marks.digest, b)
  {
    assert Safe(s.store, s.marks.digest, b) by {
      if !Promised(s, b) {
        var v :| v in s.workers && s.workers[v].Through? && ReachesTo(s, s.workers[v].end, b);
        assert WorkerOk(s, s.workers[v]);
      }
    }
    hide OnDisk, Promised, ToAdvertise, WorkersOk;
    StaysSafeIff(s.store, Store(s.workers[w].next), s.marks.digest, b);
  }

  /**
   * Whatever a crash loses, the promise is kept if and only if no promised block was stored again since
   * the last flush; and, in the middle of a reset, if each block it is about to promise is on disk.
   */
  lemma CrashKeepsInvIff(s: State, lag: nat)
    requires Inv(s)
    ensures (forall kept :: Can(s.store, Cut(kept)) ==> Inv(Do(s, Crash(kept), lag))) <==> Careful(s, Crash({}))
  {
    if Careful(s, Crash({})) {
      forall kept | Can(s.store, Cut(kept))
        ensures Inv(Do(s, Crash(kept), lag))
      {
        assert Careful(s, Crash(kept));
        hide Careful, Inv;
        StepInv(s, Crash(kept), lag);
      }
    } else {
      var b :| Promised(s, b) && !(OnDisk(s.store, b) && b !in s.store.dirty);
      var kept := s.store.synced - s.store.dirty;
      assert Can(s.store, Cut(kept));
      var t := Do(s, Crash(kept), lag);
      assert Promised(t, b) && !OnDisk(t.store, b);
    }
  }

  /**
   * Of the blocks already advertised and still to be digested, every crash leaves every one readable if
   * and only if none was stored again since the last flush.
   */
  lemma AdvertisedSurviveIff(s: State)
    requires Inv(s) && s.phase.Ready?
    ensures (forall kept, b :: Can(s.store, Cut(kept)) && s.lo <= b <= s.marks.fetch && s.marks.digest < b ==>
               Readable(Apply(s.store, Cut(kept)), b))
            <==> forall b :: s.lo <= b <= s.marks.fetch && s.marks.digest < b ==> b !in s.store.dirty
  {
    assert forall b :: s.lo <= b <= s.marks.fetch && s.marks.digest < b ==> Promised(s, b);
    if b :| s.lo <= b <= s.marks.fetch && s.marks.digest < b && b in s.store.dirty {
      var kept := s.store.synced - s.store.dirty;
      assert Can(s.store, Cut(kept)) && !Readable(Apply(s.store, Cut(kept)), b);
    } else {
      forall kept, b | Can(s.store, Cut(kept)) && s.lo <= b <= s.marks.fetch && s.marks.digest < b
        ensures Readable(Apply(s.store, Cut(kept)), b)
      {
        assert OnDisk(s.store, b) && b !in s.store.dirty;
      }
    }
  }

  /**
   * A `--from` that dies between moving the marks back and dropping the queue: what comes next still
   * finds every promise kept, whatever the crash loses, if and only if each block above the mark in a
   * chunk marked done is on disk, and was not stored again since it was flushed.
   */
  lemma InterruptedResetIff(s: State, to: int, lag: nat)
    requires Inv(s) && Enabled(s, ResetWatermarks(to), lag)
    ensures var r := Do(s, ResetWatermarks(to), lag);
            (forall kept :: Can(r.store, Cut(kept)) ==> Inv(Do(r, Crash(kept), lag)))
            <==> forall f, b :: f in s.q && s.q[f].state == Done && f <= b <= s.q[f].to && to < b ==>
                   OnDisk(s.store, b) && b !in s.store.dirty
  {
    var r := Do(s, ResetWatermarks(to), lag);
    assert r.q == s.q && r.store == s.store && r.marks.digest == to && r.phase == Resetting;
    StepInv(s, ResetWatermarks(to), lag);
    CrashKeepsInvIff(r, lag);
    hide Inv, OnDisk, Do, Enabled;
    assert forall b :: Promised(r, b) <==> to < b && exists f <- s.q :: s.q[f].state == Done && f <= b <= s.q[f].to;
  }

  /**
   * A restart seeds from one past the digest watermark, which may lie in the middle of a chunk and
   * off the old tiling: every block is still covered if and only if the tail was not clipped.
   */
  lemma RestartCoversIff(s: State, to: int, size: int, lag: nat)
    requires Inv(s) && s.phase.Ready? && AllIdle(s) && s.marks.digest < to && size >= 1
    ensures Enabled(s, Start(s.marks.digest + 1, to, size), lag)
    ensures Covered(Seeded(s.q, s.marks.digest + 1, to, size), s.lo, Greatest(s.hi, to))
            <==> !TailClipped(s.q, s.hi, s.marks.digest + 1, to, size)
  {
    SeedCoversIff(s.q, s.lo, s.hi, s.marks.digest + 1, to, size);
  }

  // ----- whole runs -------------------------------------------------------------------------------

  lemma {:induction false} RunInv(s: State, steps: seq<Step>, lag: nat)
    requires Inv(s) && IsRun(s, steps, lag) && AllCareful(s, steps, lag)
    ensures Inv(After(s, steps, lag))
    decreases |steps|
  {
    hide Inv, Careful;
    if steps != [] {
      StepInv(s, steps[0], lag);
      RunInv(Do(s, steps[0], lag), steps[1..], lag);
    }
  }

  /** The watermarks are in order, and what was read of them is behind them, after any run whatever. */
  lemma {:induction false} MarksInOrder(s: State, steps: seq<Step>, lag: nat)
    requires InOrder(s) && IsRun(s, steps, lag)
    ensures InOrder(After(s, steps, lag))
    decreases |steps|
  {
    if steps != [] {
      StepInOrder(s, steps[0], lag);
      MarksInOrder(Do(s, steps[0], lag), steps[1..], lag);
    }
  }

  lemma StepInOrder(s: State, a: Step, lag: nat)
    requires InOrder(s) && Enabled(s, a, lag)
    ensures InOrder(Do(s, a, lag))
  {
    hide Apply, Can, Seeded, IsDoneEnd, AllReadable, Reclaimed, Claimed, WithState;
  }

  // ----- what has been on disk --------------------------------------------------------------------------

  /** Nothing says that the block has been on disk: no chunk of it is done, and no watermark has reached it. */
  ghost predicate Unclaimed(s: State, b: int) {
    && EndBy(s.q, s.hi)
    && (forall f <- s.q :: f <= b <= s.q[f].to ==> s.q[f].state != Done && b <= s.end)
    && (if s.phase.Ready? then (s.lo <= b <= s.hi ==> Covers(s.q, b)) && (s.lo <= b ==> s.marks.fetch < b)
        else AllIdle(s) && s.marks.fetch == s.marks.digest)
    && forall w <- s.workers :: WorkerUnclaimed(s, s.workers[w], b)
  }

  /** A worker that has passed the block has stored it, and is not past the flush with it. */
  ghost predicate WorkerUnclaimed(s: State, p: Worker, b: int) {
    match p
    case Archiving(from, to, _, next) => IsChunk(s, from, to) && (from <= b < next ==> b in s.store.hot)
    case Stored(from, to, _) => IsChunk(s, from, to) && (from <= b <= to ==> b in s.store.hot)
    case Synced(from, to, _) => IsChunk(s, from, to) && !(from <= b <= to)
    case Broken(from, to, _) => IsChunk(s, from, to)
    case Through(end) => !ReachesTo(s, end, b)
    case _ => true
  }

  ghost predicate IsChunk(s: State, from: int, to: int) {
    from in s.q && s.q[from].to == to
  }

  ghost predicate Once(s: State, b: int) {
    b in s.store.ever || Unclaimed(s, b)
  }

  /** A restart that leaves the block to be stored, if it has not been on disk before. */
  ghost predicate CarefulFor(s: State, a: Step, b: int) {
    match a
    case Start(from, to, size) =>
      b in s.store.ever
      || (&& size >= 1
          && (NewLo(s, from) <= b <= Greatest(Top(s), to) ==> Gets(s.q, from, to, size, b))
          && forall f <- s.q :: s.q[f].state != Done && f <= b <= s.q[f].to ==> b <= to)
    case _ => true
  }

  lemma CarefulForAll(s: State, a: Step, b: int)
    requires Careful(s, a)
    ensures CarefulFor(s, a, b)
  {
  }

  lemma StepOnce(s: State, a: Step, lag: nat, b: int)
    requires Once(s, b) && Enabled(s, a, lag) && CarefulFor(s, a, b)
    ensures Once(Do(s, a, lag), b)
  {
    StepKeepsEver(s, a, lag, b);
    if b !in Do(s, a, lag).store.ever {
      if a.Start? {
        StartUnclaimed(s, a.from, a.to, a.size, lag, b);
      } else if Ordinary(s, a) {
        StepUnclaimed(s, a, lag, b);
      } else {
        hide Apply, Can, Seeded, IsDoneEnd, AllReadable, Reclaimed, Claimed, WithState, Covers;
      }
    }
  }

  /** What has been on disk has been; what is flushed or dropped is; nothing else is taken from a hot file. */
  lemma StepKeepsEver(s: State, a: Step, lag: nat, b: int)
    requires Enabled(s, a, lag)
    ensures b in s.store.ever ==> b in Do(s, a, lag).store.ever
    ensures a.Sync? && b in s.store.hot ==> b in Do(s, a, lag).store.ever
    ensures !a.Crash? && b in s.store.hot ==> b in Do(s, a, lag).store.hot || b in Do(s, a, lag).store.ever
  {
    hide Can, Do, Enabled;
    StepOnArchive(s, a, lag);
  }

  lemma StartUnclaimed(s: State, from: int, to: int, size: int, lag: nat, b: int)
    requires Unclaimed(s, b) && b !in s.store.ever
    requires Enabled(s, Start(from, to, size), lag) && CarefulFor(s, Start(from, to, size), b)
    ensures Unclaimed(Do(s, Start(from, to, size), lag), b)
  {
    SeedCoversBlockIff(s.q, from, to, size, b);
    SeedOnlyAdds(s.q, from, to, size);
    SeedAddsPending(s.q, from, to, size);
    hide Seeded, Covers, AllReadable, IsDoneEnd;
  }

  lemma StepUnclaimed(s: State, a: Step, lag: nat, b: int)
    requires Unclaimed(s, b) && Enabled(s, a, lag) && Ordinary(s, a) && b !in Do(s, a, lag).store.ever
    ensures Unclaimed(Do(s, a, lag), b)
  {
    var t := Do(s, a, lag);
    StepKeepsChunks(s, a, lag);
    StepKeepsEver(s, a, lag, b);
    RowsUnclaimed(s, a, lag, b);
    forall w | w in t.workers
      ensures WorkerUnclaimed(t, t.workers[w], b)
    {
      hide Covers, EndBy;
      if !a.Crash? && t.workers[w] == s.workers[w] {
        assert WorkerUnclaimed(s, s.workers[w], b);
      } else {
        MovedUnclaimed(s, a, lag, w, b);
      }
    }
  }

  lemma RowsUnclaimed(s: State, a: Step, lag: nat, b: int)
    requires Unclaimed(s, b) && Enabled(s, a, lag) && Ordinary(s, a)
    ensures var t := Do(s, a, lag);
            && EndBy(t.q, t.hi) && (s.lo <= b <= s.hi ==> Covers(t.q, b)) && (s.lo <= b ==> t.marks.fetch < b)
            && forall f <- t.q :: f <= b <= t.q[f].to ==> t.q[f].state != Done && b <= t.end
  {
    var t := Do(s, a, lag);
    StepKeepsChunks(s, a, lag);
    SameRows(s, a, lag);
    assert a.Complete? || a.Advance? ==> WorkerUnclaimed(s, s.workers[a.w], b);
    if s.lo <= b <= s.hi {
      var f :| f in s.q && f <= b <= s.q[f].to;
      assert f in t.q && t.q[f].to == s.q[f].to;
    }
    hide Apply, Can, Seeded, IsDoneEnd, AllReadable, BrakeCeiling, Covers, Reclaimed, Claimed;
  }

  /** No chunk comes or goes, and none is done but the one completed. */
  lemma SameRows(s: State, a: Step, lag: nat)
    requires Enabled(s, a, lag) && Ordinary(s, a)
    ensures Do(s, a, lag).q.Keys == s.q.Keys
    ensures forall f <- Do(s, a, lag).q :: Do(s, a, lag).q[f].state == Done ==>
              s.q[f].state == Done || (a.Complete? && f == s.workers[a.w].from)
  {
    hide Apply, Can, Seeded, IsDoneEnd, AllReadable, BrakeCeiling;
  }

  lemma MovedUnclaimed(s: State, a: Step, lag: nat, w: nat, b: int)
    requires Unclaimed(s, b) && Enabled(s, a, lag) && Ordinary(s, a) && w in s.workers && b !in Do(s, a, lag).store.ever
    requires a.Crash? || Do(s, a, lag).workers[w] != s.workers[w]
    ensures w in Do(s, a, lag).workers && WorkerUnclaimed(Do(s, a, lag), Do(s, a, lag).workers[w], b)
  {
    StepKeepsChunks(s, a, lag);
    StepKeepsEver(s, a, lag, b);
    assert WorkerUnclaimed(s, s.workers[w], b);
    if a.ReadDoneEnd? {
      DoneEndIsShort(s, a.end, b);
    } else if a.ArchiveBlock? {
      hide Can, IsDoneEnd, AllReadable, Covers, EndBy;
    } else {
      hide Apply, Can, Seeded, IsDoneEnd, AllReadable, Covers, BrakeCeiling;
    }
  }

  /** The done prefix stops before a block that no chunk of the queue is done with. */
  lemma DoneEndIsShort(s: State, end: Option<int>, b: int)
    requires Unclaimed(s, b) && s.phase.Ready? && IsDoneEnd(s.q, end)
    ensures !ReachesTo(s, end, b)
  {
  }

  ghost predicate AllCarefulFor(s: State, steps: seq<Step>, lag: nat, b: int)
    requires IsRun(s, steps, lag)
    decreases |steps|
  {
    steps == [] || (CarefulFor(s, steps[0], b) && AllCarefulFor(Do(s, steps[0], lag), steps[1..], lag, b))
  }

  lemma {:induction false} RunOnce(s: State, steps: seq<Step>, lag: nat, b: int)
    requires Once(s, b) && IsRun(s, steps, lag) && AllCarefulFor(s, steps, lag, b)
    ensures Once(After(s, steps, lag), b)
    decreases |steps|
  {
    hide Once, CarefulFor, Do, Enabled;
    if steps != [] {
      StepOnce(s, steps[0], lag, b);
      RunOnce(Do(s, steps[0], lag), steps[1..], lag, b);
    }
  }

  /** Only the restarts are asked to be careful. */
  ghost predicate RestartsCareful(s: State, steps: seq<Step>, lag: nat)
    requires IsRun(s, steps, lag)
    decreases |steps|
  {
    steps == []
    || ((steps[0].Start? ==> Careful(s, steps[0])) && RestartsCareful(Do(s, steps[0], lag), steps[1..], lag))
  }

  lemma {:induction false} CarefulForEach(s: State, steps: seq<Step>, lag: nat, b: int)
    requires IsRun(s, steps, lag) && (RestartsCareful(s, steps, lag) || AllCareful(s, steps, lag))
    ensures AllCarefulFor(s, steps, lag, b)
    decreases |steps|
  {
    hide Careful, CarefulFor, Do, Enabled;
    if steps != [] {
      if Careful(s, steps[0]) {
        CarefulForAll(s, steps[0], b);
      } else {
        NotARestart(s, steps[0], b);
      }
      CarefulForEach(Do(s, steps[0], lag), steps[1..], lag, b);
    }
  }

  lemma NotARestart(s: State, a: Step, b: int)
    requires !a.Start?
    ensures CarefulFor(s, a, b)
  {
  }

  lemma InitOnce(s: State, b: int)
    requires Init(s)
    ensures Once(s, b)
  {
  }

  /**
   * After any run, whatever is lost in crashes, hidden by stores or cut in resets: a block that the
   * watermark advertises has been on disk if no restart skipped it; and it is readable if and only if
   * nothing took it away since it was last stored.
   */
  lemma AdvertisedWasOnDisk(s: State, steps: seq<Step>, lag: nat, block: int)
    requires Init(s) && IsRun(s, steps, lag) && AllCarefulFor(s, steps, lag, block)
    ensures var t := After(s, steps, lag);
            && (t.phase.Ready? && t.lo <= block <= t.marks.fetch ==> block in t.store.ever)
            && (Readable(t.store, block) <==> exists i: nat :: StoredFor(s.store, ArchiveOps(s, steps, lag), block, i))
  {
    InitOnce(s, block);
    RunOnce(s, steps, lag, block);
    StaysReadableIff(s, steps, lag, block);
  }

  /**
   * Whatever the interleaving, the expired leases, the tiering, the crashes and the resets: the watermarks
   * are in order after any run; if the restarts are careful, every block from the start through the fetch
   * watermark has been on disk; and if every step is, those the digest has not committed yet still are,
   * and are readable.
   */
  lemma NoHoleAdvertised(s: State, steps: seq<Step>, lag: nat, block: int)
    requires Init(s) && IsRun(s, steps, lag)
    ensures Ordered(After(s, steps, lag).marks)
    ensures var t := After(s, steps, lag);
            t.phase.Ready? && t.lo <= block <= t.marks.fetch ==>
              && (RestartsCareful(s, steps, lag) ==> block in t.store.ever)
              && (AllCareful(s, steps, lag) && t.marks.digest < block ==>
                    block in t.store.ever && OnDisk(t.store, block) && Readable(t.store, block))
  {
    MarksInOrder(s, steps, lag);
    if RestartsCareful(s, steps, lag) || AllCareful(s, steps, lag) {
      CarefulForEach(s, steps, lag, block);
      AdvertisedWasOnDisk(s, steps, lag, block);
    }
    if AllCareful(s, steps, lag) {
      InitInv(s);
      RunInv(s, steps, lag);
      AdvertisedIsPromised(After(s, steps, lag), block);
    }
  }

  lemma AdvertisedIsPromised(t: State, block: int)
    requires Inv(t)
    ensures t.phase.Ready? && t.lo <= block <= t.marks.fetch && t.marks.digest < block ==>
              OnDisk(t.store, block) && Readable(t.store, block)
  {
    assert t.phase.Ready? && t.lo <= block <= t.marks.fetch && t.marks.digest < block ==> Promised(t, block);
  }

  /** Nothing promised is read from a cold copy. */
  ghost predicate AllHot(s: State) {
    && !s.phase.Interrupted?
    && (s.phase.Ready? ==>
          forall b :: Promised(s, b) || ToAdvertise(s, b) ==> Segment(b, s.store.size) in s.store.files)
  }

  /** Short of a crash in the middle of a reset, it stays so. */
  lemma StepStaysHot(s: State, a: Step, lag: nat)
    requires Inv(s) && AllHot(s) && Enabled(s, a, lag) && !(a.Crash? && s.phase.Resetting?)
    ensures AllHot(Do(s, a, lag))
  {
    if Ordinary(s, a) {
      var t := Do(s, a, lag);
      forall b | Promised(t, b) || ToAdvertise(t, b)
        ensures Segment(b, t.store.size) in t.store.files
      {
        StillHot(s, a, lag, b);
      }
    } else if a.Start? {
      StartStaysHot(s, a, lag);
    } else {
      assert a.ResetChunks? ==> forall b :: !Promised(Do(s, a, lag), b) && !ToAdvertise(Do(s, a, lag), b);
    }
  }

  lemma StartStaysHot(s: State, a: Step, lag: nat)
    requires Inv(s) && AllHot(s) && Enabled(s, a, lag) && a.Start?
    ensures AllHot(Do(s, a, lag))
  {
    SeedAddsPending(s.q, a.from, a.to, a.size);
    SeedOnlyAdds(s.q, a.from, a.to, a.size);
    hide Seeded, Inv, AllReadable, IsDoneEnd;
    var t := Do(s, a, lag);
    forall b | Promised(t, b) || ToAdvertise(t, b)
      ensures Promised(s, b) || ToAdvertise(s, b)
    {
      if f :| f in t.q && t.q[f].state == Done && f <= b <= t.q[f].to {
        assert f in s.q && s.q[f] == t.q[f];
      }
    }
  }

  lemma StillHot(s: State, a: Step, lag: nat, b: int)
    requires Inv(s) && AllHot(s) && Enabled(s, a, lag) && Ordinary(s, a)
    requires Promised(Do(s, a, lag), b) || ToAdvertise(Do(s, a, lag), b)
    ensures Segment(b, Do(s, a, lag).store.size) in Do(s, a, lag).store.files
  {
    var t := Do(s, a, lag);
    WasPromised(s, a, lag, b);
    assert b > s.marks.digest && s.tierBound <= s.marks.digest;
    assert Segment(b, s.store.size) in s.store.files;
    InItsSegment(b, s.store.size);
    StepOnArchive(s, a, lag);
    hide Promised, ToAdvertise, RowsOk, WorkersOk, PromisesOk, AllReadable, IsDoneEnd, Seeded;
  }

  lemma WasPromised(s: State, a: Step, lag: nat, b: int)
    requires Inv(s) && Enabled(s, a, lag) && Ordinary(s, a)
    requires Promised(Do(s, a, lag), b) || ToAdvertise(Do(s, a, lag), b)
    ensures Promised(s, b) || ToAdvertise(s, b) || b in s.store.synced
    ensures b > s.marks.digest
  {
    DigestOnlyRises(s, a, lag);
    if Promised(Do(s, a, lag), b) {
      PromisedWasSafe(s, a, lag, b);
    } else {
      WasToAdvertise(s, a, lag, b);
    }
  }

  lemma DigestOnlyRises(s: State, a: Step, lag: nat)
    requires Enabled(s, a, lag) && Ordinary(s, a)
    ensures s.marks.digest <= Do(s, a, lag).marks.digest
  {
    hide Apply, Can, Seeded, IsDoneEnd, BrakeCeiling, AllReadable, Reclaimed, Claimed, WithState;
  }

  /** A worker is about to advertise a block because it was already, or because it just read the done prefix. */
  lemma WasToAdvertise(s: State, a: Step, lag: nat, b: int)
    requires Inv(s) && Enabled(s, a, lag) && Ordinary(s, a) && ToAdvertise(Do(s, a, lag), b)
    ensures Promised(s, b) || ToAdvertise(s, b)
  {
    var t := Do(s, a, lag);
    DigestOnlyRises(s, a, lag);
    StepKeepsChunks(s, a, lag);
    var w :| w in t.workers && t.workers[w].Through? && ReachesTo(t, t.workers[w].end, b);
    NewlyThrough(s, a, lag, w);
    hide Do, Enabled, Promised, Valid, MarksOk, WorkersOk, RowsOk, PromisesOk, IsDoneEnd;
    if a.ReadDoneEnd? && a.w == w {
      DoneEndIsSafe(s, a.end);
    }
  }

  lemma NewlyThrough(s: State, a: Step, lag: nat, w: nat)
    requires Enabled(s, a, lag) && Ordinary(s, a) && w in Do(s, a, lag).workers && Do(s, a, lag).workers[w].Through?
    ensures if a.ReadDoneEnd? && a.w == w then IsDoneEnd(s.q, a.end) && Do(s, a, lag).workers[w] == Through(a.end)
            else w in s.workers && Do(s, a, lag).workers[w] == s.workers[w]
  {
    hide Apply, Can, Seeded, IsDoneEnd, BrakeCeiling, AllReadable, Reclaimed, Claimed, WithState;
  }

  /** Restarts and crashes are careful, and none of the crashes is in the middle of a reset. */
  ghost predicate Undisturbed(s: State, steps: seq<Step>, lag: nat)
    requires IsRun(s, steps, lag)
    decreases |steps|
  {
    steps == []
    || (&& (steps[0].Start? || steps[0].Crash? ==> Careful(s, steps[0]))
        && !(steps[0].Crash? && s.phase.Resetting?)
        && Undisturbed(Do(s, steps[0], lag), steps[1..], lag))
  }

  /** Then every step is careful: above the digest watermark no segment is cold-only. */
  lemma {:induction false} UndisturbedIsCareful(s: State, steps: seq<Step>, lag: nat)
    requires Inv(s) && AllHot(s) && IsRun(s, steps, lag) && Undisturbed(s, steps, lag)
    ensures AllCareful(s, steps, lag) && AllHot(After(s, steps, lag))
    decreases |steps|
  {
    if steps != [] {
      if !steps[0].Start? && !steps[0].Crash? {
        HotStoreIsCareful(s, steps[0], lag);
      }
      hide Inv, AllHot, Careful, Do, Enabled;
      StepInv(s, steps[0], lag);
      StepStaysHot(s, steps[0], lag);
      UndisturbedIsCareful(Do(s, steps[0], lag), steps[1..], lag);
    }
  }

  lemma HotStoreIsCareful(s: State, a: Step, lag: nat)
    requires AllHot(s) && Enabled(s, a, lag) && !a.Start? && !a.Crash?
    ensures Careful(s, a)
  {
  }

  // ----- what stays readable below the digest watermark ---------------------------------------------

  ghost function ArchiveOps(s: State, steps: seq<Step>, lag: nat): seq<Op>
    requires IsRun(s, steps, lag)
    decreases |steps|
  {
    if steps == [] then [] else
    var op, rest := ArchiveOp(s, steps[0]), ArchiveOps(Do(s, steps[0], lag), steps[1..], lag);
    if op.Some? then [op.value] + rest else rest
  }

  lemma {:induction false} RunOnArchive(s: State, steps: seq<Step>, lag: nat)
    requires IsRun(s, steps, lag)
    ensures CanAll(s.store, ArchiveOps(s, steps, lag))
    ensures After(s, steps, lag).store == AfterOps(s.store, ArchiveOps(s, steps, lag))
    decreases |steps|
  {
    hide Do, Enabled, Apply, ArchiveOp;
    if steps != [] {
      var op, rest := ArchiveOp(s, steps[0]), ArchiveOps(Do(s, steps[0], lag), steps[1..], lag);
      StepOnArchive(s, steps[0], lag);
      RunOnArchive(Do(s, steps[0], lag), steps[1..], lag);
      if op.Some? {
        assert ([op.value] + rest)[1..] == rest;
      }
    }
  }

  /**
   * After any run whatever, careful or not: a block is readable if and only if nothing took it away since
   * it was last stored. What takes it away is a pass that deletes its segment, a store of another block
   * into it while it has only a cold copy, or a crash that loses it.
   */
  lemma StaysReadableIff(s: State, steps: seq<Step>, lag: nat, block: int)
    requires Valid(s.store) && IsRun(s, steps, lag)
    ensures var ops := ArchiveOps(s, steps, lag);
            Readable(After(s, steps, lag).store, block)
            <==> (Readable(s.store, block) && !Taken(s.store, ops, block))
                 || exists i: nat :: StoredFor(s.store, ops, block, i)
  {
    RunOnArchive(s, steps, lag);
    ReadableIff(s.store, ArchiveOps(s, steps, lag), block);
  }

  /**
   * Nothing keeps these from happening: an error while a chunk is archived, a claim that takes any chunk
   * under the ceiling in hand or comes back with none, expiring leases, reads of the marks, the archive
   * mark following what was read, and a crash that loses what is not flushed.
   */
  lemma CanAlwaysHappen(s: State, w: nat, lag: nat)
    requires s.phase.Ready?
    ensures w in s.workers && s.workers[w].Archiving? ==> Enabled(s, ArchiveFails(w), lag)
    ensures w in s.workers && s.workers[w].Braked? ==>
              && Enabled(s, ClaimNone(w), lag)
              && forall f, e :: f in s.q && Claimable(s.q[f], s.workers[w].ceiling) ==> Enabled(s, Claim(w, f, e), lag)
    ensures forall now :: Enabled(s, Reclaim(now), lag)
    ensures Enabled(s, DigestRead, lag) && Enabled(s, TierRead, lag) && Enabled(s, TierAdvance(s.tierBound), lag)
    ensures forall kept: set<int> :: s.store.synced - s.store.dirty <= kept <= s.store.hot ==> Enabled(s, Crash(kept), lag)
  {
  }

  /** Where a step takes the marks: as far as it says, and no other mark. */
  lemma MarksReach(s: State, a: Step, lag: nat)
    requires Enabled(s, a, lag)
    ensures var t := Do(s, a, lag).marks;
            match a
            case DigestCommit(to) => t.digest == to && t.fetch == s.marks.fetch && t.archive == s.marks.archive
            case TierAdvance(to) =>
              && t.fetch == s.marks.fetch && t.digest == s.marks.digest
              && to <= t.archive && (t.archive == to || t.archive == s.marks.archive)
            case Advance(w) =>
              && t.digest == s.marks.digest && t.archive == s.marks.archive
              && (s.workers[w].end == None ==> t.fetch == s.marks.fetch)
              && (s.workers[w].end.Some? ==>
                    s.workers[w].end.value <= t.fetch && (t.fetch == s.workers[w].end.value || t.fetch == s.marks.fetch))
            case ResetWatermarks(to) => t.fetch == t.digest == to && t.archive <= s.marks.archive
            case _ => t == s.marks
  {
    hide Apply, Can, Seeded, IsDoneEnd, AllReadable, Reclaimed, Claimed, WithState, BrakeCeiling;
  }

  /** Short of an explicit reset, no watermark ever moves back. */
  lemma {:induction false} WatermarksOnlyAdvance(s: State, steps: seq<Step>, lag: nat)
    requires IsRun(s, steps, lag) && forall a <- steps :: !a.ResetWatermarks?
    ensures var t := After(s, steps, lag);
            s.marks.fetch <= t.marks.fetch && s.marks.digest <= t.marks.digest && s.marks.archive <= t.marks.archive
    decreases |steps|
  {
    if steps != [] {
      WatermarksOnlyAdvance(Do(s, steps[0], lag), steps[1..], lag);
    }
  }

  // ----- bounded lead ---------------------------------------------------------------------------

  /** No chunk ever claimed reaches past the window. */
  ghost predicate TriedWithin(q: Table, limit: int) {
    forall f <- q :: q[f].attempts > 0 ==> q[f].to <= limit
  }

  ghost predicate UntriedPending(q: Table) {
    forall f <- q :: q[f].attempts == 0 ==> q[f].state == Pending
  }

  /** Nor does a ceiling in hand; what a worker holds was claimed. */
  ghost predicate WorkerWithin(q: Table, p: Worker, limit: int) {
    && (p.Braked? ==> p.ceiling.Some? && p.ceiling.value <= limit)
    && (HeldChunk(p).Some? ==> HeldChunk(p).value in q && q[HeldChunk(p).value].attempts > 0)
  }

  ghost predicate WithinLag(s: State, lag: nat) {
    var limit := s.marks.digest + SignedLag(lag);
    && UntriedPending(s.q) && (!s.phase.Resetting? ==> TriedWithin(s.q, limit))
    && forall w <- s.workers :: if s.phase.Ready? then WorkerWithin(s.q, s.workers[w], limit) else s.workers[w].Idle?
  }

  /** The chunk a worker has claimed and not yet handed in. */
  function HeldChunk(p: Worker): Option<int> {
    if p.Archiving? || p.Stored? || p.Synced? || p.Broken? then Some(p.from) else None
  }

  /** A crash between the two statements of a reset leaves only chunks within the window of the new mark. */
  ghost predicate KeepsLead(s: State, a: Step, lag: nat) {
    a.Crash? && s.phase.Resetting? ==> TriedWithin(s.q, s.marks.digest + SignedLag(lag))
  }

  /** Each step keeps the lead bounded if and only if it is no such crash, or every chunk ever claimed fits. */
  lemma StepWithinLagIff(s: State, a: Step, lag: nat)
    requires lag < UNBOUNDED_LAG && WithinLag(s, lag) && Enabled(s, a, lag)
    ensures WithinLag(Do(s, a, lag), lag) <==> KeepsLead(s, a, lag)
  {
    if a.Crash? && s.phase.Resetting? {
      hide IsDoneEnd, Apply, Can;
    } else {
      hide Do, Enabled, WithinLag, KeepsLead;
      UncutKeepsLead(s, a, lag);
      StepWithinLag(s, a, lag);
    }
  }

  lemma UncutKeepsLead(s: State, a: Step, lag: nat)
    requires !(a.Crash? && s.phase.Resetting?)
    ensures KeepsLead(s, a, lag)
  {
  }

  lemma StepWithinLag(s: State, a: Step, lag: nat)
    requires lag < UNBOUNDED_LAG && WithinLag(s, lag) && Enabled(s, a, lag) && !(a.Crash? && s.phase.Resetting?)
    ensures WithinLag(Do(s, a, lag), lag)
  {
    if a.Start? {
      StartWithinLag(s, a.from, a.to, a.size, lag);
    } else if ChangesRows(a) {
      RowStepWithinLag(s, a, lag);
    } else if Ordinary(s, a) {
      hide Do, Enabled, WithinLag;
      OtherStepKeeps(s, a, lag);
      KeptWithinLag(s, Do(s, a, lag), lag);
    } else {
      ResetWithinLag(s, a, lag);
    }
  }

  lemma StartWithinLag(s: State, from: int, to: int, size: int, lag: nat)
    requires lag < UNBOUNDED_LAG && WithinLag(s, lag) && Enabled(s, Start(from, to, size), lag)
    ensures WithinLag(Do(s, Start(from, to, size), lag), lag)
  {
    hide IsDoneEnd, TailClipped, Seeded;
    SeedOnlyAdds(s.q, from, to, size);
    SeedAddsPending(s.q, from, to, size);
  }

  lemma RowStepWithinLag(s: State, a: Step, lag: nat)
    requires lag < UNBOUNDED_LAG && WithinLag(s, lag) && Enabled(s, a, lag) && ChangesRows(a)
    ensures WithinLag(Do(s, a, lag), lag)
  {
    hide IsDoneEnd, TailClipped, Seeded, AllReadable, Apply, Can;
  }

  lemma ResetWithinLag(s: State, a: Step, lag: nat)
    requires WithinLag(s, lag) && Enabled(s, a, lag) && !Ordinary(s, a) && !a.Start? && !(a.Crash? && s.phase.Resetting?)
    ensures WithinLag(Do(s, a, lag), lag)
  {
  }

  ghost predicate WorkerKept(s: State, p: Worker, p': Worker, lag: nat) {
    || p' == p || p' == Braked(BrakeCeiling(lag, s.marks.digest))
    || (!p'.Braked? && (HeldChunk(p') == None || HeldChunk(p') == HeldChunk(p)))
  }

  lemma KeptWithinLag(s: State, t: State, lag: nat)
    requires lag < UNBOUNDED_LAG && WithinLag(s, lag) && s.phase.Ready? && t.phase.Ready?
    requires t.q == s.q && s.marks.digest <= t.marks.digest && t.workers.Keys == s.workers.Keys
    requires forall w <- s.workers :: WorkerKept(s, s.workers[w], t.workers[w], lag)
    ensures WithinLag(t, lag)
  {
    forall w | w in t.workers
      ensures WorkerWithin(t.q, t.workers[w], t.marks.digest + SignedLag(lag))
    {
      assert WorkerWithin(s.q, s.workers[w], s.marks.digest + SignedLag(lag));
      assert WorkerKept(s, s.workers[w], t.workers[w], lag);
    }
  }

  lemma OtherStepKeeps(s: State, a: Step, lag: nat)
    requires lag < UNBOUNDED_LAG && Enabled(s, a, lag) && !ChangesRows(a) && Ordinary(s, a)
    ensures var t := Do(s, a, lag);
            && t.phase.Ready? && t.q == s.q && s.marks.digest <= t.marks.digest && t.workers.Keys == s.workers.Keys
            && forall w <- s.workers :: WorkerKept(s, s.workers[w], t.workers[w], lag)
  {
    hide IsDoneEnd, TailClipped, Seeded, Reclaimed, Claimed, WithState, Apply, Can, SegmentLast, ResetMarks, BrakeCeiling;
  }

  ghost predicate AllKeepLead(s: State, steps: seq<Step>, lag: nat)
    requires IsRun(s, steps, lag)
    decreases |steps|
  {
    steps == [] || (KeepsLead(s, steps[0], lag) && AllKeepLead(Do(s, steps[0], lag), steps[1..], lag))
  }

  /** With a brake, no leased or done chunk ever ends further ahead of the digest than the lag. */
  lemma {:induction false} BoundedLead(s: State, steps: seq<Step>, lag: nat)
    requires lag < UNBOUNDED_LAG && WithinLag(s, lag) && IsRun(s, steps, lag) && AllKeepLead(s, steps, lag)
    ensures var t := After(s, steps, lag);
            WithinLag(t, lag)
            && (!t.phase.Resetting? ==> forall f <- t.q :: t.q[f].state == Leased || t.q[f].state == Done ==>
                  t.q[f].to <= t.marks.digest + SignedLag(lag))
    decreases |steps|
  {
    hide Do, Enabled, KeepsLead;
    if steps != [] {
      StepWithinLagIff(s, steps[0], lag);
      BoundedLead(Do(s, steps[0], lag), steps[1..], lag);
    }
  }

  // ----- a backfill shorter than the queue ---------------------------------------------------------

  ghost predicate AllIn(from: int, to: int, blocks: set<int>) {
    forall b :: from <= b <= to ==> b in blocks
  }

  /**
   * A worker archives its chunk only up to the end of the backfill but marks all of it done: what
   * it marks done is on disk if and only if the part beyond the end was there already.
   */
  lemma ClippedChunkIsWholeIff(s: State, w: nat, lag: nat)
    requires s.phase.Ready? && w in s.workers && s.workers[w].Archiving?
    requires var p := s.workers[w];
             p.from in s.q && s.q[p.from].to == p.to && p.from <= p.next
             && p.next > LastToArchive(s, p)
             && AllIn(p.from, p.next - 1, s.store.hot + s.store.ever)
    ensures var steps := [FinishArchive(w), Sync(w), Complete(w)];
            var p := s.workers[w];
            IsRun(s, steps, lag)
            && var t := After(s, steps, lag);
               p.from in t.q && t.q[p.from].state == Done
               && (AllIn(p.from, p.to, t.store.ever) <==> AllIn(p.next, p.to, s.store.hot + s.store.ever))
  {
    var steps := [FinishArchive(w), Sync(w), Complete(w)];
    var s1 := Do(s, steps[0], lag);
    var s2 := Do(s1, steps[1], lag);
    var s3 := Do(s2, steps[2], lag);
    NoSteps(s3, lag);
    RunsTo(s2, steps[2], [], s3, lag);
    RunsTo(s1, steps[1], [Complete(w)] + [], s3, lag);
    RunsTo(s, steps[0], [Sync(w)] + ([Complete(w)] + []), s3, lag);
    assert steps == [FinishArchive(w)] + ([Sync(w)] + ([Complete(w)] + []));
    assert s3.store.ever == s.store.hot + s.store.ever;
  }
}
