/**
 * Short runs of the backfill protocol that end where its promises do: a restart with an earlier end, a
 * block stored after its segment was tiered, one stored again before a crash, a reset that a crash cuts in
 * two, and a crash before an advance.
 */
module Witnesses {
  import opened Backfill
  import opened BlockArchive
  import opened Progress
  import opened Queue
  import opened Wrappers

  // ----- runs, state by state -----------------------------------------------------------------------

  ghost predicate Moves(s: State, a: Step, t: State) {
    Enabled(s, a, UNBOUNDED_LAG) && Do(s, a, UNBOUNDED_LAG) == t
  }

  ghost predicate IsTrace(states: seq<State>, steps: seq<Step>) {
    |states| == |steps| + 1 && forall i :: 0 <= i < |steps| ==> Moves(states[i], steps[i], states[i + 1])
  }

  ghost predicate Reaches(s: State, steps: seq<Step>, t: State) {
    IsRun(s, steps, UNBOUNDED_LAG) && After(s, steps, UNBOUNDED_LAG) == t
  }

  ghost predicate Carefully(s: State, steps: seq<Step>) {
    IsRun(s, steps, UNBOUNDED_LAG) && AllCareful(s, steps, UNBOUNDED_LAG)
  }

  /** The fetch watermark says a block is there, and it cannot be read. */
  predicate AdvertisedButGone(s: State, b: int) {
    s.lo <= b <= s.marks.fetch && !Readable(s.store, b)
  }

  predicate WasOnDisk(s: State, b: int) {
    b in s.store.ever
  }

  /** No crash, and only careful restarts. */
  ghost predicate Calm(s: State, a: Step) {
    !a.Crash? && (a.Start? ==> Careful(s, a))
  }

  lemma {:induction false} TraceRuns(states: seq<State>, steps: seq<Step>)
    requires IsTrace(states, steps)
    ensures Reaches(states[0], steps, states[|steps|])
    ensures (forall i :: 0 <= i < |steps| ==> Calm(states[i], steps[i])) ==> Undisturbed(states[0], steps, UNBOUNDED_LAG)
    decreases |steps|
  {
    hide Enabled, Do, Careful;
    if steps != [] {
      assert Moves(states[0], steps[0], states[1]);
      TraceRuns(states[1..], steps[1..]);
    }
  }

  lemma CalmIsCareful(states: seq<State>, steps: seq<Step>)
    requires IsTrace(states, steps) && Init(states[0]) && forall i :: 0 <= i < |steps| ==> Calm(states[i], steps[i])
    ensures Carefully(states[0], steps)
  {
    hide Moves, Calm;
    TraceRuns(states, steps);
    InitInv(states[0]);
    assert forall b :: !Promised(states[0], b) && !ToAdvertise(states[0], b);
    UndisturbedIsCareful(states[0], steps, UNBOUNDED_LAG);
  }

  /** A chain that starts at block 0, over segments of two blocks. */
  function Fresh(workers: map<nat, Worker>): State {
    State(Ready, map[], InitialMarks(-1), 0, -1, -1, Empty(2, Archive), workers, -1, -1)
  }

  /** What was not flushed was stored since. */
  function Holding(hot: set<int>, synced: set<int>, files: set<int>, cold: set<int>, ever: set<int>): Holdings {
    Holdings(2, Archive, hot, synced, hot - synced, files, cold, None, ever)
  }

  /** One chunk, from block 0. */
  function Chunk(to: int, state: ChunkState, attempts: nat, expires: int): Table {
    map[0 := Row(to, state, attempts, expires)]
  }

  lemma SeedsOne(to: int, size: int, row: Row)
    requires 0 <= to && size == to + 1
    ensures Seeded(map[], 0, to, size) == map[0 := Row(to, Pending, 0, 0)]
    ensures Seeded(map[0 := row], 0, to, size) == map[0 := row]
  {
    var q: Table := map[0 := Row(to, Pending, 0, 0)];
    assert Seeded(q, to + 1, to, size) == q;
    assert Seeded(map[0 := row], to + 1, to, size) == map[0 := row];
  }

  lemma OneDoneEnd(to: int, attempts: nat, expires: int)
    ensures IsDoneEnd(Chunk(to, Done, attempts, expires), Some(to))
  {
    assert InDonePrefix(Chunk(to, Done, attempts, expires), 0);
  }

  // ----- a restart with an earlier end ------------------------------------------------------------------

  function ShortSteps(): seq<Step> {
    [Start(0, 1, 2), Start(0, 0, 1), ReadBrake(0), Claim(0, 0, 0), ArchiveBlock(0), FinishArchive(0), Sync(0), Complete(0),
     ReadDoneEnd(0, Some(1)), Advance(0)]
  }

  function Short(i: nat): State
    requires i <= 10
  {
    var s := Fresh(map[0 := Idle]);
    var queued := s.(q := Chunk(1, Pending, 0, 0), hi := 1, end := 1);
    var again := queued.(end := 0);
    var claimed := again.(q := Chunk(1, Leased, 1, 0));
    var stored := claimed.(store := Holding({0}, {}, {0}, {}, {}));
    var synced := claimed.(store := Holding({0}, {0}, {0}, {}, {0}));
    var done := synced.(q := Chunk(1, Done, 1, 0));
    if i == 0 then s
    else if i == 1 then queued
    else if i == 2 then again
    else if i == 3 then again.(workers := map[0 := Braked(None)])
    else if i == 4 then claimed.(workers := map[0 := Archiving(0, 1, 1, 0)])
    else if i == 5 then stored.(workers := map[0 := Archiving(0, 1, 1, 1)])
    else if i == 6 then stored.(workers := map[0 := Stored(0, 1, 1)])
    else if i == 7 then synced.(workers := map[0 := Synced(0, 1, 1)])
    else if i == 8 then done.(workers := map[0 := Completed])
    else if i == 9 then done.(workers := map[0 := Through(Some(1))])
    else done.(marks := s.marks.(fetch := 1), workers := map[0 := Idle])
  }

  lemma ShortQueues(i: nat)
    requires i < 4
    ensures Moves(Short(i), ShortSteps()[i], Short(i + 1))
  {
    hide IsDoneEnd, Seeded, TailClipped, Reclaimed, WithState, Stopped, ResetMarks, Apply, Can;
    SeedsOne(1, 2, Row(1, Pending, 0, 0));
    SeedsOne(0, 1, Row(1, Pending, 0, 0));
  }

  lemma ShortStoresFirst()
    ensures Moves(Short(4), ShortSteps()[4], Short(5))
  {
    hide IsDoneEnd, Seeded, TailClipped, Reclaimed, Claimed, WithState, Stopped, ResetMarks, BrakeCeiling;
  }

  lemma ShortStores(i: nat)
    requires 5 <= i < 7
    ensures Moves(Short(i), ShortSteps()[i], Short(i + 1))
  {
    hide IsDoneEnd, Seeded, TailClipped, Reclaimed, Claimed, WithState, Stopped, ResetMarks;
  }

  lemma ShortIsDone()
    ensures Moves(Short(7), ShortSteps()[7], Short(8))
  {
    hide IsDoneEnd, Seeded, TailClipped, Reclaimed, Claimed, Stopped, ResetMarks, Apply, Can, BrakeCeiling;
  }

  lemma ShortAdvertises(i: nat)
    requires 8 <= i < 10
    ensures Moves(Short(i), ShortSteps()[i], Short(i + 1))
  {
    hide IsDoneEnd, Seeded, TailClipped, Reclaimed, Claimed, WithState, Stopped, ResetMarks, Apply, Can, BrakeCeiling;
    OneDoneEnd(1, 1, 0);
  }

  /**
   * A queue to block 1, then a restart that stops at block 0: the one chunk is archived up to the
   * stop and marked done as a whole, and the fetch watermark advertises block 1, which nobody stored.
   */
  lemma ShortRestartAdvertisesAHole()
    ensures AdvertisedButGone(Short(10), 1) && !WasOnDisk(Short(10), 1)
    ensures Init(Short(0)) && Reaches(Short(0), ShortSteps(), Short(10))
  {
    hide Moves, Reaches, Carefully;
    var states := seq(11, i requires 0 <= i < 11 => Short(i));
    forall i | 0 <= i < 10
      ensures Moves(states[i], ShortSteps()[i], states[i + 1])
    {
      if i < 4 { ShortQueues(i); } else if i == 4 { ShortStoresFirst(); } else if i < 7 { ShortStores(i); }
      else if i == 7 { ShortIsDone(); } else { ShortAdvertises(i); }
    }
    TraceRuns(states, ShortSteps());
  }

  // ----- a block stored after its segment was tiered ------------------------------------------------------

  function LateSteps(): seq<Step> {
    [Start(0, 1, 2), ReadBrake(0), Claim(0, 0, 0), ArchiveBlock(0), Reclaim(1), ReadBrake(1), Claim(1, 0, 9),
     ArchiveBlock(1), ArchiveBlock(1), FinishArchive(1), Sync(1), Complete(1), ReadDoneEnd(1, Some(1)), Advance(1),
     DigestRead, DigestCommit(1), TierRead, CopySegment(0), DropSegment(0), ArchiveBlock(0)]
  }

  function Both(first: Worker, second: Worker): map<nat, Worker> {
    map[0 := first, 1 := second]
  }

  /** While the first worker is slow, the chunk is leased to the second one, which completes it. */
  function Late(i: nat): State
    requires i <= 20
  {
    var s := Fresh(Both(Idle, Idle));
    var queued := s.(q := Chunk(1, Pending, 0, 0), hi := 1, end := 1);
    var slow := Archiving(0, 1, 1, 1);
    var stalled := queued.(q := Chunk(1, Pending, 1, 0), store := Holding({0}, {}, {0}, {}, {}), workers := Both(slow, Idle));
    var taken := stalled.(q := Chunk(1, Leased, 2, 9));
    var stored := taken.(store := Holding({0, 1}, {}, {0}, {}, {}));
    var synced := taken.(store := Holding({0, 1}, {0, 1}, {0}, {}, {0, 1}));
    var done := synced.(q := Chunk(1, Done, 2, 9));
    var marks := s.marks.(fetch := 1);
    var fetched := done.(marks := marks, workers := Both(slow, Idle));
    var digested := fetched.(ready := 1, marks := marks.(digest := 1));
    var copied := digested.(tierBound := 1, store := Holding({0, 1}, {0, 1}, {0}, {0, 1}, {0, 1}).(copied := Some(0)));
    var tiered := digested.(tierBound := 1, store := Holding({}, {}, {}, {0, 1}, {0, 1}));
    if i == 0 then s
    else if i == 1 then queued
    else if i == 2 then queued.(workers := Both(Braked(None), Idle))
    else if i == 3 then queued.(q := Chunk(1, Leased, 1, 0), workers := Both(Archiving(0, 1, 1, 0), Idle))
    else if i == 4 then stalled.(q := Chunk(1, Leased, 1, 0))
    else if i == 5 then stalled
    else if i == 6 then stalled.(workers := Both(slow, Braked(None)))
    else if i == 7 then taken.(workers := Both(slow, Archiving(0, 1, 2, 0)))
    else if i == 8 then taken.(workers := Both(slow, Archiving(0, 1, 2, 1)))
    else if i == 9 then stored.(workers := Both(slow, Archiving(0, 1, 2, 2)))
    else if i == 10 then stored.(workers := Both(slow, Stored(0, 1, 2)))
    else if i == 11 then synced.(workers := Both(slow, Synced(0, 1, 2)))
    else if i == 12 then done.(workers := Both(slow, Completed))
    else if i == 13 then done.(workers := Both(slow, Through(Some(1))))
    else if i == 14 then fetched
    else if i == 15 then fetched.(ready := 1)
    else if i == 16 then digested
    else if i == 17 then digested.(tierBound := 1)
    else if i == 18 then copied
    else if i == 19 then tiered
    else tiered.(store := Holding({1}, {}, {0}, {0, 1}, {0, 1}), workers := Both(Archiving(0, 1, 1, 2), Idle))
  }

  lemma LateClaims(i: nat)
    requires i < 3
    ensures Moves(Late(i), LateSteps()[i], Late(i + 1))
  {
    hide IsDoneEnd, Seeded, TailClipped, Reclaimed, WithState, Stopped, ResetMarks, Apply, Can;
    SeedsOne(1, 2, Row(1, Pending, 0, 0));
  }

  lemma LateReclaims(i: nat)
    requires 4 <= i < 7
    ensures Moves(Late(i), LateSteps()[i], Late(i + 1))
  {
    hide IsDoneEnd, Seeded, TailClipped, WithState, Stopped, ResetMarks, Apply, Can;
  }

  lemma LateStoresFirst()
    ensures Moves(Late(3), LateSteps()[3], Late(4))
  {
    hide IsDoneEnd, Seeded, TailClipped, Reclaimed, Claimed, WithState, Stopped, ResetMarks, BrakeCeiling, SignedLag;
  }

  lemma LateStores(i: nat)
    requires 7 <= i < 9
    ensures Moves(Late(i), LateSteps()[i], Late(i + 1))
  {
    hide IsDoneEnd, Seeded, TailClipped, Reclaimed, Claimed, WithState, Stopped, ResetMarks, BrakeCeiling, SignedLag;
  }

  lemma LateSyncs(i: nat)
    requires 9 <= i < 11
    ensures Moves(Late(i), LateSteps()[i], Late(i + 1))
  {
    hide IsDoneEnd, Seeded, TailClipped, Reclaimed, Claimed, WithState, Stopped, ResetMarks;
  }

  lemma LateIsDone()
    ensures Moves(Late(11), LateSteps()[11], Late(12))
  {
    hide IsDoneEnd, Seeded, TailClipped, Reclaimed, Claimed, Stopped, ResetMarks, Apply, Can, BrakeCeiling;
  }

  lemma LateAdvertises(i: nat)
    requires 12 <= i < 14
    ensures Moves(Late(i), LateSteps()[i], Late(i + 1))
  {
    hide IsDoneEnd, Seeded, TailClipped, Reclaimed, Claimed, WithState, Stopped, ResetMarks, Apply, Can, BrakeCeiling;
    OneDoneEnd(1, 2, 9);
  }

  lemma LateDigests(i: nat)
    requires 14 <= i < 17
    ensures Moves(Late(i), LateSteps()[i], Late(i + 1))
  {
    hide IsDoneEnd, Seeded, TailClipped, Reclaimed, Claimed, WithState, Stopped, ResetMarks, Apply, Can;
  }

  lemma CopiesBoth()
    ensures var held := Holding({0, 1}, {0, 1}, {0}, {}, {0, 1});
            Can(held, Copy(0)) && Apply(held, Copy(0)) == Holding({0, 1}, {0, 1}, {0}, {0, 1}, {0, 1}).(copied := Some(0))
  {
  }

  lemma LateCopies()
    ensures Moves(Late(17), LateSteps()[17], Late(18))
  {
    hide IsDoneEnd, Seeded, TailClipped, Reclaimed, Claimed, WithState, Stopped, ResetMarks, BrakeCeiling, Apply, Can;
    CopiesBoth();
  }

  lemma LateDrops()
    ensures Moves(Late(18), LateSteps()[18], Late(19))
  {
    hide IsDoneEnd, Seeded, TailClipped, Reclaimed, Claimed, WithState, Stopped, ResetMarks, BrakeCeiling;
  }

  lemma LateStoresLast()
    ensures Moves(Late(19), LateSteps()[19], Late(20))
  {
    hide IsDoneEnd, Seeded, TailClipped, Reclaimed, Claimed, WithState, Stopped, ResetMarks, BrakeCeiling;
  }

  lemma LateMoves(i: nat)
    requires i < 20
    ensures Moves(Late(i), LateSteps()[i], Late(i + 1))
  {
    hide Moves;
    if i < 3 { LateClaims(i); } else if i == 3 { LateStoresFirst(); } else if i < 7 { LateReclaims(i); }
    else if i < 9 { LateStores(i); } else if i < 11 { LateSyncs(i); }
    else if i == 11 { LateIsDone(); } else if i < 14 { LateAdvertises(i); } else if i < 17 { LateDigests(i); }
    else if i == 17 { LateCopies(); } else if i == 18 { LateDrops(); } else { LateStoresLast(); }
  }

  /**
   * A worker whose lease ran out stores a block after another worker completed the chunk, the digest
   * committed it and its segment was moved: the other block of the segment, advertised and once on
   * disk, can no longer be read. Every restart in the run is careful.
   */
  lemma LateStoreHidesABlock()
    ensures AdvertisedButGone(Late(20), 0) && WasOnDisk(Late(20), 0)
    ensures Init(Late(0)) && Reaches(Late(0), LateSteps(), Late(20)) && Carefully(Late(0), LateSteps())
  {
    LateStarts();
    LateEnds();
    hide Moves, Reaches, Carefully, Seeded, Calm, Late, AdvertisedButGone, WasOnDisk, Init;
    var states := seq(21, i requires 0 <= i < 21 => Late(i));
    forall i | 0 <= i < 20
      ensures Moves(states[i], LateSteps()[i], states[i + 1])
    {
      LateMoves(i);
    }
    forall i | 0 <= i < 20
      ensures Calm(states[i], LateSteps()[i])
    {
      LateIsCalm(i);
    }
    TraceRuns(states, LateSteps());
    CalmIsCareful(states, LateSteps());
  }

  lemma LateIsCalm(i: nat)
    requires i < 20
    ensures Calm(Late(i), LateSteps()[i])
  {
  }

  lemma LateStarts()
    ensures Init(Late(0))
  {
  }

  lemma LateEnds()
    ensures AdvertisedButGone(Late(20), 0) && WasOnDisk(Late(20), 0)
  {
  }

  // ----- a block stored again before a crash ---------------------------------------------------------------

  function AgainSteps(): seq<Step> {
    LateSteps()[..14] + [ArchiveBlock(0)]
  }

  /** As before, but the slow worker stores its block before the digest has read it. */
  function Again(i: nat): State
    requires i <= 15
  {
    if i <= 14 then Late(i)
    else Late(14).(store := Late(14).store.(dirty := {1}), workers := Both(Archiving(0, 1, 1, 2), Idle))
  }

  lemma AgainStores(i: nat)
    requires i < 15
    ensures Moves(Again(i), AgainSteps()[i], Again(i + 1)) && Calm(Again(i), AgainSteps()[i])
  {
    hide Moves, Calm, Late;
    if i < 14 {
      LateMoves(i);
      LateIsCalm(i);
      assert AgainSteps()[i] == LateSteps()[i];
    } else {
      AgainStoresIt();
    }
  }

  lemma AgainStoresIt()
    ensures Moves(Again(14), ArchiveBlock(0), Again(15)) && Calm(Again(14), ArchiveBlock(0))
  {
    hide IsDoneEnd, Seeded, TailClipped, Reclaimed, Claimed, WithState, Stopped, ResetMarks;
  }

  /**
   * A worker whose lease ran out stores a block again that was flushed, advertised and not digested yet. A
   * crash before the next flush may leave its newer index entry without a frame, and the block cannot be
   * read, though its chunk is done. Every step before the crash is careful.
   */
  lemma StoredAgainIsLost()
    ensures OnDisk(Again(15).store, 1) && Again(15).marks.digest < 1 && !Careful(Again(15), Crash({0}))
    ensures Enabled(Again(15), Crash({0}), UNBOUNDED_LAG)
    ensures var t := Do(Again(15), Crash({0}), UNBOUNDED_LAG); AdvertisedButGone(t, 1) && t.q == Chunk(1, Done, 2, 9)
    ensures Init(Again(0)) && Reaches(Again(0), AgainSteps(), Again(15)) && Carefully(Again(0), AgainSteps())
  {
    AgainIsLost();
    StartsFresh();
    hide Moves, Reaches, Carefully, Seeded, Calm, Again, Enabled, Do, Careful, OnDisk, AdvertisedButGone, Init;
    var states := seq(16, i requires 0 <= i < 16 => Again(i));
    forall i | 0 <= i < 15
      ensures Moves(states[i], AgainSteps()[i], states[i + 1]) && Calm(states[i], AgainSteps()[i])
    {
      AgainStores(i);
    }
    TraceRuns(states, AgainSteps());
    CalmIsCareful(states, AgainSteps());
  }

  lemma StartsFresh()
    ensures Again(0) == Late(0) && Init(Again(0))
  {
  }

  lemma AgainIsLost()
    ensures OnDisk(Again(15).store, 1) && Again(15).marks.digest < 1 && !Careful(Again(15), Crash({0}))
    ensures Enabled(Again(15), Crash({0}), UNBOUNDED_LAG)
    ensures var t := Do(Again(15), Crash({0}), UNBOUNDED_LAG); AdvertisedButGone(t, 1) && t.q == Chunk(1, Done, 2, 9)
  {
    assert Promised(Again(15), 1);
  }

  // ----- a reset cut in two --------------------------------------------------------------------------------

  function ResetSteps(): seq<Step> {
    [Start(0, 0, 1), ReadBrake(0), Claim(0, 0, 0), ArchiveBlock(0), FinishArchive(0), Sync(0), Complete(0),
     ReadDoneEnd(0, Some(0)), Advance(0), DigestRead, DigestCommit(0), TierRead, DropSegment(0), ResetWatermarks(-1),
     Crash({}), Start(0, 1, 1), ReadBrake(0), Claim(0, 1, 0), ArchiveBlock(0), FinishArchive(0), Sync(0), Complete(0),
     ReadDoneEnd(0, Some(1)), Advance(0)]
  }

  function Single(hot: set<int>, synced: set<int>, files: set<int>, ever: set<int>): Holdings {
    Holdings(1, Delete, hot, synced, hot - synced, files, {}, None, ever)
  }

  function One(p: Worker): map<nat, Worker> {
    map[0 := p]
  }

  /** Block 0 is archived, digested and deleted; its row stays. */
  function FirstBlock(i: nat): State
    requires i <= 14
  {
    var s := State(Ready, map[], InitialMarks(-1), 0, -1, -1, Empty(1, Delete), One(Idle), -1, -1);
    var queued := s.(q := Chunk(0, Pending, 0, 0), hi := 0, end := 0);
    var claimed := queued.(q := Chunk(0, Leased, 1, 0));
    var stored := claimed.(store := Single({0}, {}, {0}, {}));
    var synced := claimed.(store := Single({0}, {0}, {0}, {0}));
    var done := synced.(q := Chunk(0, Done, 1, 0));
    var fetched := done.(marks := s.marks.(fetch := 0));
    var digested := fetched.(ready := 0, marks := fetched.marks.(digest := 0));
    var deleted := digested.(tierBound := 0, store := Single({}, {}, {}, {0}));
    if i == 0 then s
    else if i == 1 then queued
    else if i == 2 then queued.(workers := One(Braked(None)))
    else if i == 3 then claimed.(workers := One(Archiving(0, 0, 1, 0)))
    else if i == 4 then stored.(workers := One(Archiving(0, 0, 1, 1)))
    else if i == 5 then stored.(workers := One(Stored(0, 0, 1)))
    else if i == 6 then synced.(workers := One(Synced(0, 0, 1)))
    else if i == 7 then done.(workers := One(Completed))
    else if i == 8 then done.(workers := One(Through(Some(0))))
    else if i == 9 then fetched
    else if i == 10 then fetched.(ready := 0)
    else if i == 11 then digested
    else if i == 12 then digested.(tierBound := 0)
    else if i == 13 then deleted
    else deleted.(phase := Resetting, marks := InitialMarks(-1), ready := -1, tierBound := -1)
  }

  /** The crash, and a restart that asks for block 1. */
  function SecondBlock(i: nat): State
    requires 15 <= i <= 24
  {
    var s := FirstBlock(14).(phase := Interrupted);
    var rows := (state, attempts) => map[0 := Row(0, Done, 1, 0), 1 := Row(1, state, attempts, 0)];
    var queued := s.(phase := Ready, q := rows(Pending, 0), hi := 1, end := 1);
    var claimed := queued.(q := rows(Leased, 1));
    var stored := claimed.(store := Single({1}, {}, {1}, {0}));
    var synced := claimed.(store := Single({1}, {1}, {1}, {0, 1}));
    var done := synced.(q := rows(Done, 1));
    if i == 15 then s
    else if i == 16 then queued
    else if i == 17 then queued.(workers := One(Braked(None)))
    else if i == 18 then claimed.(workers := One(Archiving(1, 1, 1, 1)))
    else if i == 19 then stored.(workers := One(Archiving(1, 1, 1, 2)))
    else if i == 20 then stored.(workers := One(Stored(1, 1, 1)))
    else if i == 21 then synced.(workers := One(Synced(1, 1, 1)))
    else if i == 22 then done.(workers := One(Completed))
    else if i == 23 then done.(workers := One(Through(Some(1))))
    else done.(marks := done.marks.(fetch := 1))
  }

  function ResetRun(i: nat): State
    requires i <= 24
  {
    if i <= 14 then FirstBlock(i) else SecondBlock(i)
  }

  lemma FirstIsQueued(i: nat)
    requires i < 3
    ensures Moves(FirstBlock(i), ResetSteps()[i], FirstBlock(i + 1))
  {
    hide IsDoneEnd, Seeded, TailClipped, Reclaimed, WithState, Stopped, ResetMarks, Apply, Can;
    SeedsOne(0, 1, Row(0, Pending, 0, 0));
  }

  lemma StoresFirst()
    ensures Moves(FirstBlock(3), ResetSteps()[3], FirstBlock(4))
  {
    hide IsDoneEnd, Seeded, TailClipped, Reclaimed, Claimed, WithState, Stopped, ResetMarks;
  }

  lemma FirstIsFlushed(i: nat)
    requires 4 <= i < 6
    ensures Moves(FirstBlock(i), ResetSteps()[i], FirstBlock(i + 1))
  {
    hide IsDoneEnd, Seeded, TailClipped, Reclaimed, Claimed, WithState, Stopped, ResetMarks;
  }

  lemma FirstIsDone()
    ensures Moves(FirstBlock(6), ResetSteps()[6], FirstBlock(7))
  {
    hide IsDoneEnd, Seeded, TailClipped, Reclaimed, Claimed, Stopped, ResetMarks, Apply, Can;
  }

  lemma FirstIsAdvertised(i: nat)
    requires 7 <= i < 9
    ensures Moves(FirstBlock(i), ResetSteps()[i], FirstBlock(i + 1))
  {
    hide IsDoneEnd, Seeded, TailClipped, Reclaimed, Claimed, WithState, Stopped, ResetMarks, Apply, Can;
    OneDoneEnd(0, 1, 0);
  }

  lemma FirstIsDigested(i: nat)
    requires 9 <= i < 12
    ensures Moves(FirstBlock(i), ResetSteps()[i], FirstBlock(i + 1))
  {
    hide IsDoneEnd, Seeded, TailClipped, Reclaimed, Claimed, WithState, Stopped, ResetMarks, Apply, Can;
  }

  lemma FirstIsDeleted(i: nat)
    requires 12 <= i < 14
    ensures Moves(FirstBlock(i), ResetSteps()[i], FirstBlock(i + 1))
  {
    hide IsDoneEnd, Seeded, TailClipped, Reclaimed, Claimed, WithState, Stopped;
  }

  lemma ResetIsCut()
    ensures Moves(FirstBlock(14), ResetSteps()[14], SecondBlock(15))
  {
    hide IsDoneEnd, Seeded, TailClipped, Reclaimed, Claimed, WithState, ResetMarks;
  }

  lemma SeedsSecond()
    ensures Seeded(map[0 := Row(0, Done, 1, 0)], 0, 1, 1) == map[0 := Row(0, Done, 1, 0), 1 := Row(1, Pending, 0, 0)]
  {
    var q: Table := map[0 := Row(0, Done, 1, 0)];
    var r := q[1 := Row(1, Pending, 0, 0)];
    assert Seeded(r, 2, 1, 1) == r;
    assert Seeded(q, 1, 1, 1) == Seeded(r, 2, 1, 1);
    assert Seeded(q, 0, 1, 1) == Seeded(q, 1, 1, 1);
  }

  lemma SecondIsQueued(i: nat)
    requires 15 <= i < 18
    ensures Moves(SecondBlock(i), ResetSteps()[i], SecondBlock(i + 1))
  {
    hide IsDoneEnd, Seeded, TailClipped, Reclaimed, WithState, Stopped, ResetMarks, Apply, Can;
    SeedsSecond();
  }

  lemma StoresSecond()
    ensures Moves(SecondBlock(18), ResetSteps()[18], SecondBlock(19))
  {
    hide IsDoneEnd, Seeded, TailClipped, Reclaimed, Claimed, WithState, Stopped, ResetMarks;
  }

  lemma SecondIsFlushed(i: nat)
    requires 19 <= i < 21
    ensures Moves(SecondBlock(i), ResetSteps()[i], SecondBlock(i + 1))
  {
    hide IsDoneEnd, Seeded, TailClipped, Reclaimed, Claimed, WithState, Stopped, ResetMarks;
  }

  lemma SecondIsDone()
    ensures Moves(SecondBlock(21), ResetSteps()[21], SecondBlock(22))
  {
    hide IsDoneEnd, Seeded, TailClipped, Reclaimed, Claimed, Stopped, ResetMarks, Apply, Can;
  }

  lemma SecondIsAdvertised(i: nat)
    requires 22 <= i < 24
    ensures Moves(SecondBlock(i), ResetSteps()[i], SecondBlock(i + 1))
  {
    hide IsDoneEnd, Seeded, TailClipped, Reclaimed, Claimed, WithState, Stopped, ResetMarks, Apply, Can, BrakeCeiling;
    SecondDoneEnd();
  }

  lemma SecondDoneEnd()
    ensures IsDoneEnd(map[0 := Row(0, Done, 1, 0), 1 := Row(1, Done, 1, 0)], Some(1))
  {
    var q: Table := map[0 := Row(0, Done, 1, 0), 1 := Row(1, Done, 1, 0)];
    assert InDonePrefix(q, 1) && q[1].to == 1;
  }

  /**
   * Blocks are deleted once digested, a `--from` goes back to the first one, and the process dies after
   * moving the marks and before dropping the queue. The restart finds the old row done, and the fetch
   * watermark advertises a block that is deleted and is to be digested again.
   */
  lemma CutResetAdvertisesDeletedBlocks()
    ensures AdvertisedButGone(ResetRun(24), 0) && ResetRun(24).marks.digest < 0
    ensures Careful(ResetRun(15), Start(0, 1, 1)) && !Careful(ResetRun(14), Crash({}))
    ensures Init(ResetRun(0)) && Reaches(ResetRun(0), ResetSteps(), ResetRun(24))
  {
    ResetRunEnds();
    CutIsCareless();
    RestartIsCareful();
    hide Moves, Reaches, Seeded, FirstBlock, SecondBlock, Careful, AdvertisedButGone, Init;
    var states := seq(25, i requires 0 <= i < 25 => ResetRun(i));
    forall i | 0 <= i < 24
      ensures Moves(states[i], ResetSteps()[i], states[i + 1])
    {
      if i < 3 { FirstIsQueued(i); } else if i == 3 { StoresFirst(); } else if i < 6 { FirstIsFlushed(i); }
      else if i == 6 { FirstIsDone(); } else if i < 9 { FirstIsAdvertised(i); }
      else if i < 12 { FirstIsDigested(i); } else if i < 14 { FirstIsDeleted(i); } else if i == 14 { ResetIsCut(); }
      else if i < 18 { SecondIsQueued(i); } else if i == 18 { StoresSecond(); } else if i < 21 { SecondIsFlushed(i); }
      else if i == 21 { SecondIsDone(); } else { SecondIsAdvertised(i); }
    }
    TraceRuns(states, ResetSteps());
  }

  lemma ResetRunEnds()
    ensures AdvertisedButGone(ResetRun(24), 0) && ResetRun(24).marks.digest < 0
    ensures Init(ResetRun(0))
  {
  }

  lemma CutIsCareless()
    ensures !Careful(ResetRun(14), Crash({}))
  {
    var s := ResetRun(14);
    assert s.q == Chunk(0, Done, 1, 0) && s.marks.digest == -1;
    assert 0 in s.q && s.q[0].state == Done;
    assert Promised(s, 0) && !OnDisk(s.store, 0);
  }

  lemma RestartIsCareful()
    ensures Careful(ResetRun(15), Start(0, 1, 1))
  {
    hide TailClipped, Seeded;
    var s := ResetRun(15);
    assert s.q == Chunk(0, Done, 1, 0) && s.phase == Interrupted;
    assert 0 in s.q && Covers(s.q, 0);
    assert Top(s) == s.hi == 0;
    assert TileStart(0, 1, 1) == TileStart(1, 1, 1) == 1;
    assert NoGap(s.q, 0, 1, 1, 0, 1);
  }

  // ----- a crash before an advance --------------------------------------------------------------------

  function StallSteps(): seq<Step> {
    [Start(0, 0, 1), ReadBrake(0), Claim(0, 0, 0), ArchiveBlock(0), FinishArchive(0), Sync(0), Complete(0), Crash({0})]
  }

  function Stall(i: nat): State
    requires i <= 8
  {
    var s := Fresh(map[0 := Idle]);
    var queued := s.(q := Chunk(0, Pending, 0, 0), hi := 0, end := 0);
    var claimed := queued.(q := Chunk(0, Leased, 1, 0));
    var stored := claimed.(store := Holding({0}, {}, {0}, {}, {}));
    var synced := claimed.(store := Holding({0}, {0}, {0}, {}, {0}));
    var done := synced.(q := Chunk(0, Done, 1, 0));
    if i == 0 then s
    else if i == 1 then queued
    else if i == 2 then queued.(workers := map[0 := Braked(None)])
    else if i == 3 then claimed.(workers := map[0 := Archiving(0, 0, 1, 0)])
    else if i == 4 then stored.(workers := map[0 := Archiving(0, 0, 1, 1)])
    else if i == 5 then stored.(workers := map[0 := Stored(0, 0, 1)])
    else if i == 6 then synced.(workers := map[0 := Synced(0, 0, 1)])
    else if i == 7 then done.(workers := map[0 := Completed])
    else done
  }

  lemma StallQueues(i: nat)
    requires i < 3
    ensures Moves(Stall(i), StallSteps()[i], Stall(i + 1))
  {
    hide IsDoneEnd, Seeded, TailClipped, Reclaimed, WithState, Stopped, ResetMarks, Apply, Can;
    SeedsOne(0, 1, Row(0, Pending, 0, 0));
  }

  lemma StallStores(i: nat)
    requires 3 <= i < 6
    ensures Moves(Stall(i), StallSteps()[i], Stall(i + 1))
  {
    hide IsDoneEnd, Seeded, TailClipped, Reclaimed, Claimed, WithState, Stopped, ResetMarks;
  }

  lemma StallCrashes(i: nat)
    requires 6 <= i < 8
    ensures Moves(Stall(i), StallSteps()[i], Stall(i + 1))
  {
    hide IsDoneEnd, Seeded, TailClipped, Reclaimed, Claimed, ResetMarks;
  }

  ghost predicate RestartResumes(s: State, to: int) {
    Enabled(s, Start(0, to, 1), UNBOUNDED_LAG) && CanResume(Do(s, Start(0, to, 1), UNBOUNDED_LAG), UNBOUNDED_LAG)
  }

  /**
   * One chunk is completed, and the process dies before the fetch watermark follows: nothing moves
   * on, nor does a restart that stops at the same block; one that is asked for the next block does.
   */
  lemma StallLastsUntilMoreIsAsked()
    ensures Stall(8).q[0].state == Done && 0 in Stall(8).store.synced && Stall(8).marks.fetch == -1
    ensures !CanResume(Stall(8), UNBOUNDED_LAG)
    ensures !RestartResumes(Stall(8), 0) && RestartResumes(Stall(8), 1)
    ensures Init(Stall(0)) && Reaches(Stall(0), StallSteps(), Stall(8))
  {
    hide Moves, Reaches, Carefully, Seeded, CanResume, Do;
    var states := seq(9, i requires 0 <= i < 9 => Stall(i));
    forall i | 0 <= i < 8
      ensures Moves(states[i], StallSteps()[i], states[i + 1])
    {
      if i < 3 { StallQueues(i); } else if i < 6 { StallStores(i); } else { StallCrashes(i); }
    }
    TraceRuns(states, StallSteps());
    StallsAtTheEnd();
  }

  lemma StallsAtTheEnd()
    ensures !CanResume(Stall(8), UNBOUNDED_LAG)
    ensures !RestartResumes(Stall(8), 0) && RestartResumes(Stall(8), 1)
  {
    hide CanResume, Do, Seeded, IsDoneEnd;
    var s := Stall(8);
    ResumesIff(s, 0, UNBOUNDED_LAG);
    RestartResumesIff(s, 0, 1, 0, UNBOUNDED_LAG);
    RestartResumesIff(s, 1, 1, 0, UNBOUNDED_LAG);
    assert NewTileFits(s.q, 1, 1, 1, None);
  }
}
