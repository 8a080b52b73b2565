/**
 * Progress of the backfill: with no crash and no lease expired in a worker's hands, the brake never
 * deadlocks fetch and digest, every chunk is tried at most five times, and a run can only end with
 * everything digested or a chunk failed. A crash can end that, and the last part says exactly when.
 */
module Progress {
  import opened Backfill
  import opened BlockArchive
  import opened Extrema
  import opened Queue
  import opened Sums
  import opened Wrappers

  // ----- a measure ------------------------------------------------------------------------------

  /** What further attempts at a chunk of `len` blocks can cost, after so many. */
  function Left(attempts: nat, len: nat): nat
    decreases MAX_CHUNK_ATTEMPTS - attempts
  {
    if attempts >= MAX_CHUNK_ATTEMPTS then 0 else len + 8 + Left(attempts + 1, len)
  }

  function Len(from: int, to: int): nat {
    if from <= to then to - from + 1 else 0
  }

  /** A pending chunk can be claimed once more, however often it was. */
  function RowWeight(from: int, row: Row): nat {
    if row.state == Pending then Len(from, row.to) + 8 + Left(row.attempts + 1, Len(from, row.to)) else 0
  }

  function WorkerWeight(p: Worker): nat {
    match p
    case Idle => 0
    case Braked(_) => 0
    case Archiving(from, to, attempts, next) => Left(attempts, Len(from, to)) + Len(next, to) + 7
    case Stored(from, to, attempts) => Left(attempts, Len(from, to)) + 6
    case Synced(from, to, attempts) => Left(attempts, Len(from, to)) + 5
    case Completed => 4
    case Through(_) => 3
    case Broken(from, to, attempts) => Left(attempts, Len(from, to)) + 1
  }

  ghost function RowWeights(q: Table): map<int, nat> {
    map f | f in q :: RowWeight(f, q[f])
  }

  ghost function WorkerWeights(workers: map<nat, Worker>): map<nat, nat> {
    map w | w in workers :: WorkerWeight(workers[w])
  }

  /** Leased by a worker that is no more. */
  ghost predicate Orphan(s: State, f: int) {
    f in s.q && s.q[f].state == Leased && forall w :: !Holds(s, w, f)
  }

  /** An orphan comes back once, and can then be claimed. */
  ghost function OrphanWeights(s: State): map<int, nat> {
    map f | f in s.q :: if Orphan(s, f) then 1 + RowWeight(f, s.q[f].(state := Pending)) else 0
  }

  ghost function Measure(s: State): nat
    requires s.marks.digest <= s.hi && s.ready <= s.hi
  {
    Sum(RowWeights(s.q)) + Sum(OrphanWeights(s)) + Sum(WorkerWeights(s.workers)) + (s.hi - s.marks.digest) + (s.hi - s.ready)
  }

  /** Steps of a run with no crash, no expired lease and no new backfill. */
  predicate Quiet(a: Step) {
    !a.Start? && !a.Reclaim? && !a.Crash? && !a.ResetWatermarks? && !a.ResetChunks?
  }

  /** Or it returns leases, but none that a worker still holds. */
  ghost predicate QuietAt(s: State, a: Step) {
    Quiet(a) || (a.Reclaim? && forall w, f :: Holds(s, w, f) && f in s.q ==> a.now <= s.q[f].expires)
  }

  ghost predicate QuietAll(s: State, steps: seq<Step>, lag: nat)
    requires IsRun(s, steps, lag)
    decreases |steps|
  {
    steps == [] || (QuietAt(s, steps[0]) && QuietAll(Do(s, steps[0], lag), steps[1..], lag))
  }

  /** Looking again without finding anything new. */
  predicate IsPoll(s: State, a: Step) {
    a.ReadBrake? || a.ClaimNone? || a.TierRead? || a.CopySegment? || a.DropSegment? || a.TierAdvance?
    || (a.DigestRead? && s.ready == s.marks.fetch) || (a.Reclaim? && Reclaimed(s.q, a.now) == s.q)
  }

  // ----- what a quiet run keeps -------------------------------------------------------------------

  ghost predicate Holds(s: State, w: nat, f: int) {
    w in s.workers && HeldChunk(s.workers[w]) == Some(f)
  }

  /** The workers that hold chunks have leased them, each its own. */
  ghost predicate LeasesHeld(s: State) {
    && (forall w, f :: Holds(s, w, f) ==>
          f in s.q && s.q[f].state == Leased
          && s.q[f].attempts == s.workers[w].attempts && s.q[f].to == s.workers[w].to)
    && (forall w, w', f :: Holds(s, w, f) && Holds(s, w', f) ==> w == w')
  }

  ghost predicate NoOrphans(s: State) {
    forall f <- s.q :: !Orphan(s, f)
  }

  /** No chunk is claimed a sixth time, short of the one claim that a chunk nobody works on can always have. */
  ghost predicate AttemptsWithin(s: State, was: Table) {
    && (forall f <- s.q :: f in was)
    && (forall f <- s.q ::
          s.q[f].attempts <= Greatest(MAX_CHUNK_ATTEMPTS - 1, was[f].attempts)
                             + if s.q[f].state == Pending || Orphan(s, f) then 0 else 1)
  }

  /** The fetch watermark has caught up with the done prefix, or a worker is about to move it. */
  ghost predicate AdvanceDue(s: State, end: int) {
    end <= s.marks.fetch
    || exists w <- s.workers ::
         s.workers[w].Completed?
         || (s.workers[w].Through? && s.workers[w].end.Some? && end <= s.workers[w].end.value)
  }

  ghost predicate Due(s: State) {
    forall end :: IsDoneEnd(s.q, Some(end)) ==> AdvanceDue(s, end)
  }

  /** Every chunk that is not done fits in the window. */
  ghost predicate OpenChunksFit(q: Table, lag: nat) {
    lag == UNBOUNDED_LAG || (1 <= lag <= I64_MAX && forall f <- q :: q[f].state != Done ==> q[f].to - f + 1 <= lag)
  }

  /** A backfill in which every worker has the lease of its chunk. */
  ghost predicate Underway(s: State, lag: nat) {
    s.phase.Ready? && Inv(s) && AllHot(s) && LeasesHeld(s) && OpenChunksFit(s.q, lag) && s.hi <= I64_MAX
  }

  ghost predicate DoneThrough(q: Table, end: int) {
    forall f <- q :: f <= end ==> q[f].state == Done
  }

  /** The fetch watermark, and any worker about to move it, stop short of the chunks still open. */
  ghost predicate MarksOnDone(s: State) {
    && DoneThrough(s.q, s.marks.fetch)
    && forall w <- s.workers ::
         s.workers[w].Through? && s.workers[w].end.Some? ==> DoneThrough(s.q, s.workers[w].end.value)
  }

  /** A backfill begun on an empty queue: no chunk overlaps another. */
  ghost predicate Steady(s: State, lag: nat) {
    Underway(s, lag) && NoOrphans(s) && Due(s) && Tiled(s.q, s.lo, s.hi) && MarksOnDone(s)
  }

  lemma SameDone(q: Table, q': Table, end: int)
    requires q.Keys == q'.Keys && forall f <- q :: q'[f].to == q[f].to && (q'[f].state == Done <==> q[f].state == Done)
    ensures IsDoneEnd(q', Some(end)) ==> IsDoneEnd(q, Some(end))
  {
    assert forall f :: f in q <==> f in q';
    assert forall f :: InDonePrefix(q, f) <==> InDonePrefix(q', f);
  }

  /** The worker of a step that changes no row and hands no chunk over. */
  predicate MovesWorker(a: Step) {
    a.ReadBrake? || a.ClaimNone? || a.ArchiveBlock? || a.ArchiveFails? || a.FinishArchive? || a.Sync?
    || a.ReadDoneEnd? || a.Advance?
  }

  predicate MovesMarks(a: Step) {
    a.DigestRead? || a.DigestCommit? || a.TierRead? || a.CopySegment? || a.DropSegment? || a.TierAdvance?
  }

  /** The same chunks, and done ones stay done. */
  lemma StepKeepsRows(s: State, a: Step, lag: nat)
    requires LeasesHeld(s) && Enabled(s, a, lag) && QuietAt(s, a)
    ensures var t := Do(s, a, lag);
            && t.q.Keys == s.q.Keys
            && (forall f <- s.q :: t.q[f].to == s.q[f].to && (s.q[f].state == Done ==> t.q[f].state == Done))
            && (!a.Complete? ==> forall f <- s.q :: t.q[f].state == Done ==> s.q[f].state == Done)
  {
    hide IsDoneEnd, Apply, Can, BrakeCeiling;
    assert (a.Complete? || a.GiveBack?) ==> Holds(s, a.w, s.workers[a.w].from);
  }

  lemma StepAttempts(s: State, a: Step, lag: nat, was: Table)
    requires LeasesHeld(s) && Enabled(s, a, lag) && QuietAt(s, a) && AttemptsWithin(s, was)
    ensures AttemptsWithin(Do(s, a, lag), was)
  {
    StepOrphans(s, a, lag);
    hide IsDoneEnd, Apply, Can, BrakeCeiling, Orphan;
    assert (a.Complete? || a.GiveBack?) ==> Holds(s, a.w, s.workers[a.w].from);
  }

  /** Orphans are those there were, less the ones returned; nothing else happens to them. */
  lemma StepOrphans(s: State, a: Step, lag: nat)
    requires LeasesHeld(s) && Enabled(s, a, lag) && QuietAt(s, a)
    ensures var t := Do(s, a, lag);
            forall f :: if Orphan(s, f) && !(a.Reclaim? && s.q[f].expires < a.now)
                        then Orphan(t, f) && t.q[f] == s.q[f] else !Orphan(t, f)
  {
    if a.Claim? {
      ClaimHolds(s, a.w, a.from, a.expires, lag);
    } else if a.Complete? || a.GiveBack? {
      HandInHolds(s, a, lag);
    } else {
      MoveHolds(s, a, lag);
    }
  }

  lemma MoveHolds(s: State, a: Step, lag: nat)
    requires Enabled(s, a, lag) && QuietAt(s, a) && !a.Claim? && !a.Complete? && !a.GiveBack?
    ensures var t := Do(s, a, lag);
            t.q == (if a.Reclaim? then Reclaimed(s.q, a.now) else s.q) && forall w, f :: Holds(t, w, f) <==> Holds(s, w, f)
  {
    hide IsDoneEnd, Apply, Can, BrakeCeiling, Reclaimed;
  }

  lemma ClaimHolds(s: State, w: nat, from: int, expires: int, lag: nat)
    requires Enabled(s, Claim(w, from, expires), lag)
    ensures forall v, f :: Holds(Do(s, Claim(w, from, expires), lag), v, f) <==> (if v == w then f == from else Holds(s, v, f))
  {
  }

  lemma HandInHolds(s: State, a: Step, lag: nat)
    requires LeasesHeld(s) && Enabled(s, a, lag) && (a.Complete? || a.GiveBack?)
    ensures Holds(s, a.w, s.workers[a.w].from)
    ensures forall v, f :: Holds(Do(s, a, lag), v, f) <==> v != a.w && Holds(s, v, f)
  {
  }

  lemma StepLeasesHeld(s: State, a: Step, lag: nat)
    requires LeasesHeld(s) && Enabled(s, a, lag) && QuietAt(s, a)
    ensures LeasesHeld(Do(s, a, lag))
  {
    if a.Claim? {
      ClaimLeasesHeld(s, a.w, a.from, a.expires, lag);
    } else if MovesWorker(a) || MovesMarks(a) || a.Reclaim? {
      MoveLeasesHeld(s, a, lag);
    } else {
      HandInLeasesHeld(s, a, lag);
    }
  }

  lemma MoveLeasesHeld(s: State, a: Step, lag: nat)
    requires LeasesHeld(s) && Enabled(s, a, lag) && QuietAt(s, a) && (MovesWorker(a) || MovesMarks(a) || a.Reclaim?)
    ensures LeasesHeld(Do(s, a, lag))
  {
    var t := Do(s, a, lag);
    MoveHolds(s, a, lag);
    assert forall w, f :: Holds(t, w, f) ==>
        t.workers[w].attempts == s.workers[w].attempts && t.workers[w].to == s.workers[w].to by {
      hide IsDoneEnd, Apply, Can, BrakeCeiling, Reclaimed, LeasesHeld;
    }
    hide Do, Enabled;
    assert forall w, f :: Holds(s, w, f) ==> t.q[f] == s.q[f];
  }

  lemma ClaimLeasesHeld(s: State, w: nat, from: int, expires: int, lag: nat)
    requires LeasesHeld(s) && Enabled(s, Claim(w, from, expires), lag)
    ensures LeasesHeld(Do(s, Claim(w, from, expires), lag))
  {
    ClaimHolds(s, w, from, expires, lag);
  }

  lemma HandInLeasesHeld(s: State, a: Step, lag: nat)
    requires LeasesHeld(s) && Enabled(s, a, lag) && (a.Complete? || a.GiveBack?)
    ensures LeasesHeld(Do(s, a, lag))
  {
    HandInHolds(s, a, lag);
  }

  /** Completing a chunk makes the advance due, and it stays due until it is made. */
  lemma StepDue(s: State, a: Step, lag: nat)
    requires LeasesHeld(s) && Enabled(s, a, lag) && QuietAt(s, a) && (Due(s) || a.Complete?)
    ensures Due(Do(s, a, lag))
  {
    var t := Do(s, a, lag);
    forall end | IsDoneEnd(t.q, Some(end))
      ensures AdvanceDue(t, end)
    {
      if a.Complete? {
        assert t.workers[a.w].Completed?;
      } else {
        StepKeepsRows(s, a, lag);
        SameDone(s.q, t.q, end);
        KeepsAdvanceDue(s, a, lag, end);
      }
    }
  }

  lemma KeepsAdvanceDue(s: State, a: Step, lag: nat, end: int)
    requires Enabled(s, a, lag) && QuietAt(s, a) && !a.Complete?
    requires IsDoneEnd(s.q, Some(end)) && AdvanceDue(s, end)
    ensures AdvanceDue(Do(s, a, lag), end)
  {
    var t := Do(s, a, lag);
    if end > s.marks.fetch {
      var w :| w in s.workers && (s.workers[w].Completed?
        || (s.workers[w].Through? && s.workers[w].end.Some? && end <= s.workers[w].end.value));
      assert w in t.workers;
      if a.ReadDoneEnd? && a.w == w {
        assert t.workers[w].end == Some(end);
      }
    }
  }

  lemma StepMarksOnDone(s: State, a: Step, lag: nat)
    requires LeasesHeld(s) && Tiled(s.q, s.lo, s.hi) && MarksOnDone(s) && Enabled(s, a, lag) && QuietAt(s, a)
    ensures MarksOnDone(Do(s, a, lag))
  {
    StepKeepsRows(s, a, lag);
    if a.ReadDoneEnd? && a.end.Some? {
      var f :| f in s.q && InDonePrefix(s.q, f) && s.q[f].to == a.end.value;
      assert DoneThrough(s.q, a.end.value);
    }
    hide Apply, Can, BrakeCeiling, Tiled, IsDoneEnd, LeasesHeld;
  }

  lemma StepTiled(s: State, a: Step, lag: nat)
    requires LeasesHeld(s) && Tiled(s.q, s.lo, s.hi) && Enabled(s, a, lag) && QuietAt(s, a)
    ensures Tiled(Do(s, a, lag).q, s.lo, s.hi)
  {
    StepKeepsRows(s, a, lag);
    hide Covered, Do, Enabled, LeasesHeld;
    SameCover(s.q, Do(s, a, lag).q, s.lo, s.hi);
  }

  lemma StepUnderway(s: State, a: Step, lag: nat)
    requires Underway(s, lag) && Enabled(s, a, lag) && QuietAt(s, a)
    ensures Underway(Do(s, a, lag), lag)
  {
    HotStoreIsCareful(s, a, lag);
    hide Careful;
    StepInv(s, a, lag);
    StepStaysHot(s, a, lag);
    StepLeasesHeld(s, a, lag);
    StepKeepsRows(s, a, lag);
    SameRange(s, a, lag);
    hide Inv, AllHot, LeasesHeld, Do, Enabled;
  }

  lemma StepSteady(s: State, a: Step, lag: nat)
    requires Steady(s, lag) && Enabled(s, a, lag) && QuietAt(s, a)
    ensures Steady(Do(s, a, lag), lag)
  {
    StepUnderway(s, a, lag);
    StepOrphans(s, a, lag);
    StepDue(s, a, lag);
    StepTiled(s, a, lag);
    StepMarksOnDone(s, a, lag);
    SameRange(s, a, lag);
    hide Underway, Due, Tiled, MarksOnDone, Do, Enabled, Orphan;
  }

  // ----- the measure decreases --------------------------------------------------------------------

  lemma WorkerMoved(s: State, w: nat, p: Worker)
    requires w in s.workers
    ensures Sum(WorkerWeights(s.workers[w := p])) + WorkerWeight(s.workers[w])
            == Sum(WorkerWeights(s.workers)) + WorkerWeight(p)
  {
    SumUpdated(WorkerWeights(s.workers), w, WorkerWeight(p));
    assert WorkerWeights(s.workers[w := p]) == WorkerWeights(s.workers)[w := WorkerWeight(p)];
  }

  lemma RowChanged(q: Table, f: int, row: Row)
    requires f in q
    ensures Sum(RowWeights(q[f := row])) + RowWeight(f, q[f]) == Sum(RowWeights(q)) + RowWeight(f, row)
  {
    SumUpdated(RowWeights(q), f, RowWeight(f, row));
    assert RowWeights(q[f := row]) == RowWeights(q)[f := RowWeight(f, row)];
  }

  lemma RowStepDecreases(s: State, a: Step, lag: nat)
    requires LeasesHeld(s) && Enabled(s, a, lag) && (a.Claim? || a.Complete? || a.GiveBack?)
    ensures Sum(RowWeights(Do(s, a, lag).q)) + Sum(WorkerWeights(Do(s, a, lag).workers))
            < Sum(RowWeights(s.q)) + Sum(WorkerWeights(s.workers))
  {
    hide LeasesHeld, RowWeight, WorkerWeight, RowWeights, WorkerWeights;
    var t := Do(s, a, lag);
    var f := if a.Claim? then a.from else s.workers[a.w].from;
    if a.Claim? {
      ClaimDecreases(s, a.w, f, a.expires, lag);
    } else {
      HandInDecreases(s, a, lag);
    }
    WorkerMoved(s, a.w, t.workers[a.w]);
    RowChanged(s.q, f, t.q[f]);
  }

  lemma ClaimDecreases(s: State, w: nat, from: int, expires: int, lag: nat)
    requires LeasesHeld(s) && Enabled(s, Claim(w, from, expires), lag)
    ensures var t := Do(s, Claim(w, from, expires), lag);
            RowWeight(from, t.q[from]) + WorkerWeight(t.workers[w])
            < RowWeight(from, s.q[from]) + WorkerWeight(s.workers[w])
  {
  }

  lemma HandInDecreases(s: State, a: Step, lag: nat)
    requires LeasesHeld(s) && Enabled(s, a, lag) && (a.Complete? || a.GiveBack?)
    ensures var t, f := Do(s, a, lag), s.workers[a.w].from;
            f in s.q
            && RowWeight(f, t.q[f]) + WorkerWeight(t.workers[a.w]) < RowWeight(f, s.q[f]) + WorkerWeight(s.workers[a.w])
  {
    assert Holds(s, a.w, s.workers[a.w].from);
  }

  lemma MovesOneWorker(s: State, a: Step, lag: nat)
    requires Inv(s) && Enabled(s, a, lag) && MovesWorker(a)
    ensures a.w in s.workers && a.w in Do(s, a, lag).workers
    ensures var p := Do(s, a, lag).workers[a.w];
            && Do(s, a, lag).workers == s.workers[a.w := p]
            && WorkerWeight(p) <= WorkerWeight(s.workers[a.w])
            && (!IsPoll(s, a) ==> WorkerWeight(p) < WorkerWeight(s.workers[a.w]))
  {
    assert WorkerOk(s, s.workers[a.w]);
    hide Safe, Held, RowsOk, MarksOk, Apply, Can, IsDoneEnd, Left, BrakeCeiling;
  }

  lemma WorkerStepDecreases(s: State, a: Step, lag: nat)
    requires Inv(s) && Enabled(s, a, lag) && MovesWorker(a)
    ensures Sum(WorkerWeights(Do(s, a, lag).workers)) <= Sum(WorkerWeights(s.workers))
    ensures !IsPoll(s, a) ==> Sum(WorkerWeights(Do(s, a, lag).workers)) < Sum(WorkerWeights(s.workers))
  {
    MovesOneWorker(s, a, lag);
    hide Inv, Do, Enabled, IsPoll, WorkerWeight;
    WorkerMoved(s, a.w, Do(s, a, lag).workers[a.w]);
  }

  /** A returned orphan weighs one less than before; nothing else changes. */
  lemma ReclaimDecreases(s: State, now: int, lag: nat)
    requires LeasesHeld(s) && Enabled(s, Reclaim(now), lag) && QuietAt(s, Reclaim(now))
    ensures var t := Do(s, Reclaim(now), lag);
            && t == s.(q := Reclaimed(s.q, now))
            && Sum(RowWeights(t.q)) + Sum(OrphanWeights(t)) <= Sum(RowWeights(s.q)) + Sum(OrphanWeights(s))
            && (t.q != s.q ==> Sum(RowWeights(t.q)) + Sum(OrphanWeights(t)) < Sum(RowWeights(s.q)) + Sum(OrphanWeights(s)))
  {
    var t := Do(s, Reclaim(now), lag);
    assert t == s.(q := Reclaimed(s.q, now)) && t.q.Keys == s.q.Keys;
    assert OrphanWeights(t).Keys == OrphanWeights(s).Keys == RowWeights(t.q).Keys == RowWeights(s.q).Keys;
    hide LeasesHeld, QuietAt, RowWeights, OrphanWeights, Reclaimed, Orphan;
    forall f | f in s.q
      ensures RowWeights(t.q)[f] + OrphanWeights(t)[f] <= RowWeights(s.q)[f] + OrphanWeights(s)[f]
      ensures t.q[f] != s.q[f] ==> RowWeights(t.q)[f] + OrphanWeights(t)[f] < RowWeights(s.q)[f] + OrphanWeights(s)[f]
    {
      ReturnedWeighsLess(s, now, lag, f);
    }
    hide Do, Enabled;
    FewerWeights(s, t);
  }

  lemma FewerWeights(s: State, t: State)
    requires t.q.Keys == s.q.Keys
    requires forall f <- s.q :: RowWeights(t.q)[f] + OrphanWeights(t)[f] <= RowWeights(s.q)[f] + OrphanWeights(s)[f]
    requires forall f <- s.q :: t.q[f] != s.q[f] ==>
               RowWeights(t.q)[f] + OrphanWeights(t)[f] < RowWeights(s.q)[f] + OrphanWeights(s)[f]
    ensures Sum(RowWeights(t.q)) + Sum(OrphanWeights(t)) <= Sum(RowWeights(s.q)) + Sum(OrphanWeights(s))
    ensures t.q != s.q ==> Sum(RowWeights(t.q)) + Sum(OrphanWeights(t)) < Sum(RowWeights(s.q)) + Sum(OrphanWeights(s))
  {
    var a, b, c, d := RowWeights(t.q), OrphanWeights(t), RowWeights(s.q), OrphanWeights(s);
    assert a.Keys == b.Keys == c.Keys == d.Keys == s.q.Keys;
    hide RowWeights, OrphanWeights;
    SumsCompare(a, b, c, d);
    if t.q != s.q {
      var f :| f in s.q && t.q[f] != s.q[f];
      assert f in a;
    }
  }

  lemma ReturnedWeighsLess(s: State, now: int, lag: nat, f: int)
    requires LeasesHeld(s) && Enabled(s, Reclaim(now), lag) && QuietAt(s, Reclaim(now)) && f in s.q
    ensures var t := s.(q := Reclaimed(s.q, now));
            && RowWeights(t.q)[f] + OrphanWeights(t)[f] <= RowWeights(s.q)[f] + OrphanWeights(s)[f]
            && (t.q[f] != s.q[f] ==> RowWeights(t.q)[f] + OrphanWeights(t)[f] < RowWeights(s.q)[f] + OrphanWeights(s)[f])
  {
    StepOrphans(s, Reclaim(now), lag);
    if s.q[f].state == Leased && s.q[f].expires < now {
      ExpiredIsOrphan(s, now, f);
    }
    hide Orphan, LeasesHeld, RowWeight;
  }

  lemma ExpiredIsOrphan(s: State, now: int, f: int)
    requires LeasesHeld(s) && QuietAt(s, Reclaim(now)) && f in s.q && s.q[f].state == Leased && s.q[f].expires < now
    ensures Orphan(s, f)
  {
  }

  lemma SameOrphanWeights(s: State, a: Step, lag: nat)
    requires LeasesHeld(s) && Enabled(s, a, lag) && Quiet(a)
    ensures OrphanWeights(Do(s, a, lag)) == OrphanWeights(s)
  {
    StepOrphans(s, a, lag);
    StepKeepsRows(s, a, lag);
    hide Do, Enabled, Orphan, LeasesHeld;
  }

  /** Each step of a quiet run that is not a poll brings the measure down. */
  lemma StepDecreases(s: State, a: Step, lag: nat)
    requires Underway(s, lag) && Enabled(s, a, lag) && QuietAt(s, a) && Inv(Do(s, a, lag))
    ensures Measure(Do(s, a, lag)) <= Measure(s)
    ensures !IsPoll(s, a) ==> Measure(Do(s, a, lag)) < Measure(s)
  {
    hide RowsOk, IsDoneEnd, OpenChunksFit, WorkerOk, RowWeights, WorkerWeights, RowWeight, OrphanWeights, Apply, Can, Safe,
         Reclaimed;
    if a.Reclaim? {
      ReclaimDecreases(s, a.now, lag);
    } else {
      SameOrphanWeights(s, a, lag);
      if MovesWorker(a) {
        WorkerStepDecreases(s, a, lag);
      } else if !MovesMarks(a) {
        RowStepDecreases(s, a, lag);
      }
    }
  }

  // ----- no deadlock ------------------------------------------------------------------------------

  /** After `polls`, a step that is no poll can be taken. */
  ghost predicate MovesOn(s: State, polls: seq<Step>, a: Step, lag: nat) {
    && (forall p <- polls :: p.ReadBrake? || p.ClaimNone?)
    && IsRun(s, polls, lag)
    && Enabled(After(s, polls, lag), a, lag) && Quiet(a) && !IsPoll(After(s, polls, lag), a)
  }

  /** Some worker, or the digest, can still move the work on: at once or after looking again. */
  ghost predicate CanProgress(s: State, lag: nat) {
    exists polls, a :: MovesOn(s, polls, a, lag)
  }

  /** What a worker does, or the start of a backfill, without taking any work. */
  predicate LooksAgain(a: Step) {
    a.ReadBrake? || a.ClaimNone? || a.Reclaim?
  }

  /** After looking again, expired leases included, a step that is no poll can be taken. */
  ghost predicate Resumes(s: State, looks: seq<Step>, a: Step, lag: nat) {
    && (forall p <- looks :: LooksAgain(p))
    && IsRun(s, looks, lag)
    && Enabled(After(s, looks, lag), a, lag) && Quiet(a) && !IsPoll(After(s, looks, lag), a)
  }

  ghost predicate CanResume(s: State, lag: nat) {
    exists looks, a :: Resumes(s, looks, a, lag)
  }

  /** Still to be fetched: pending, or leased to nobody who is alive. */
  predicate Unfetched(row: Row, ceiling: Option<int>) {
    (row.state == Pending || row.state == Leased) && (ceiling == None || row.to <= ceiling.value)
  }

  lemma ProgressIsResuming(s: State, lag: nat)
    requires CanProgress(s, lag)
    ensures CanResume(s, lag)
  {
    var polls, a :| MovesOn(s, polls, a, lag);
    assert Resumes(s, polls, a, lag);
  }

  lemma MovesOnAtOnce(s: State, a: Step, lag: nat)
    requires Enabled(s, a, lag) && Quiet(a) && !IsPoll(s, a)
    ensures CanProgress(s, lag)
  {
    assert MovesOn(s, [], a, lag);
  }

  /** The step a worker with work in hand takes next. */
  lemma BusyWorkerMoves(s: State, w: nat, lag: nat)
    requires s.phase.Ready? && w in s.workers && !s.workers[w].Idle? && !s.workers[w].Braked?
    ensures CanProgress(s, lag)
  {
    match s.workers[w] {
      case Archiving(_, _, _, next) =>
        MovesOnAtOnce(s, if next <= LastToArchive(s, s.workers[w]) then ArchiveBlock(w) else FinishArchive(w), lag);
      case Stored(_, _, _) => MovesOnAtOnce(s, Sync(w), lag);
      case Synced(_, _, _) => MovesOnAtOnce(s, Complete(w), lag);
      case Completed =>
        var end := DoneEndExists(s.q);
        MovesOnAtOnce(s, ReadDoneEnd(w, end), lag);
      case Through(_) => MovesOnAtOnce(s, Advance(w), lag);
      case Broken(_, _, _) => MovesOnAtOnce(s, GiveBack(w), lag);
    }
  }

  lemma IdleWorkerMoves(s: State, w: nat, f: int, lag: nat)
    requires s.phase.Ready? && w in s.workers && s.workers[w].Idle?
    requires f in s.q && Claimable(s.q[f], BrakeCeiling(lag, s.marks.digest))
    ensures CanProgress(s, lag)
  {
    var t := Do(s, ReadBrake(w), lag);
    assert [ReadBrake(w)][1..] == [];
    assert IsRun(t, [], lag) && After(t, [], lag) == t;
    assert IsRun(s, [ReadBrake(w)], lag) && After(s, [ReadBrake(w)], lag) == t;
    assert MovesOn(s, [ReadBrake(w)], Claim(w, f, 0), lag);
  }

  lemma {:induction false} PollFirst(s: State, poll: Step, lag: nat)
    requires Enabled(s, poll, lag) && (poll.ReadBrake? || poll.ClaimNone?) && CanProgress(Do(s, poll, lag), lag)
    ensures CanProgress(s, lag)
  {
    var t := Do(s, poll, lag);
    var polls, a :| MovesOn(t, polls, a, lag);
    var all := [poll] + polls;
    assert all[0] == poll && all[1..] == polls;
    assert IsRun(s, all, lag) && After(s, all, lag) == After(t, polls, lag);
    assert MovesOn(s, all, a, lag);
  }

  /** A waiting worker claims any chunk that fits under the present ceiling. */
  lemma WaitingWorkerMoves(s: State, w: nat, f: int, lag: nat)
    requires s.phase.Ready? && w in s.workers && (s.workers[w].Idle? || s.workers[w].Braked?)
    requires f in s.q && Claimable(s.q[f], BrakeCeiling(lag, s.marks.digest))
    ensures CanProgress(s, lag)
  {
    if s.workers[w].Idle? {
      IdleWorkerMoves(s, w, f, lag);
    } else if g :| g in s.q && Claimable(s.q[g], s.workers[w].ceiling) {
      MovesOnAtOnce(s, Claim(w, g, 0), lag);
    } else {
      IdleWorkerMoves(Do(s, ClaimNone(w), lag), w, f, lag);
      PollFirst(s, ClaimNone(w), lag);
    }
  }

  /** What is left when nothing can move: the digest has caught up and no chunk is in hand. */
  ghost predicate AtRest(s: State, lag: nat) {
    && s.marks.digest == s.ready == s.marks.fetch
    && (forall w <- s.workers :: s.workers[w].Idle? || s.workers[w].Braked?)
    && (forall f <- s.q :: !Claimable(s.q[f], BrakeCeiling(lag, s.marks.digest)))
  }

  /** What the digest has been told of, it can read. */
  lemma AdvertisedIsReadable(s: State)
    requires Inv(s) && s.phase.Ready?
    ensures AllReadable(s.store, s.marks.digest + 1, s.ready)
  {
    forall b | s.marks.digest + 1 <= b <= s.ready
      ensures Readable(s.store, b)
    {
      assert Promised(s, b);
    }
  }

  lemma StuckIsAtRest(s: State, some: nat, lag: nat)
    requires Inv(s) && s.phase.Ready? && some in s.workers && !CanProgress(s, lag)
    ensures AtRest(s, lag)
  {
    hide RowsOk, Claimable, CanProgress, WorkerOk, Safe;
    if s.ready != s.marks.fetch {
      MovesOnAtOnce(s, DigestRead, lag);
    }
    if s.marks.digest < s.ready {
      AdvertisedIsReadable(s);
      MovesOnAtOnce(s, DigestCommit(s.ready), lag);
    }
    forall w | w in s.workers
      ensures s.workers[w].Idle? || s.workers[w].Braked?
    {
      if !s.workers[w].Idle? && !s.workers[w].Braked? {
        BusyWorkerMoves(s, w, lag);
      }
    }
    forall f | f in s.q
      ensures !Claimable(s.q[f], BrakeCeiling(lag, s.marks.digest))
    {
      if Claimable(s.q[f], BrakeCeiling(lag, s.marks.digest)) {
        WaitingWorkerMoves(s, some, f, lag);
      }
    }
  }

  /** At rest for good: nor is there a chunk that could be claimed once its lease has run out. */
  ghost predicate NothingLeft(s: State, lag: nat) {
    AtRest(s, lag) && forall f <- s.q :: !Unfetched(s.q[f], BrakeCeiling(lag, s.marks.digest))
  }

  lemma {:induction false} LookFirst(s: State, look: Step, lag: nat)
    requires Enabled(s, look, lag) && LooksAgain(look) && CanResume(Do(s, look, lag), lag)
    ensures CanResume(s, lag)
  {
    var t := Do(s, look, lag);
    var looks, a :| Resumes(t, looks, a, lag);
    var all := [look] + looks;
    assert all[0] == look && all[1..] == looks;
    assert IsRun(s, all, lag) && After(s, all, lag) == After(t, looks, lag);
    assert Resumes(s, all, a, lag);
  }

  lemma StuckIsLeftNothing(s: State, some: nat, lag: nat)
    requires Inv(s) && s.phase.Ready? && some in s.workers && !CanResume(s, lag)
    ensures NothingLeft(s, lag)
  {
    if CanProgress(s, lag) {
      ProgressIsResuming(s, lag);
    }
    StuckIsAtRest(s, some, lag);
    forall f | f in s.q
      ensures !Unfetched(s.q[f], BrakeCeiling(lag, s.marks.digest))
    {
      if Unfetched(s.q[f], BrakeCeiling(lag, s.marks.digest)) {
        hide CanResume, BrakeCeiling, Inv, AtRest, CanProgress;
        if s.workers[some].Idle? {
          ReclaimAndClaim(s, some, f, lag);
        } else {
          ReclaimAndClaim(Do(s, ClaimNone(some), lag), some, f, lag);
          LookFirst(s, ClaimNone(some), lag);
        }
      }
    }
  }

  /** With no orphans, being at rest is enough. */
  lemma AtRestIsLeftNothing(s: State, lag: nat)
    requires AtRest(s, lag) && NoOrphans(s)
    ensures NothingLeft(s, lag)
  {
    forall f | f in s.q
      ensures s.q[f].state != Leased
    {
      assert !Orphan(s, f);
    }
  }

  /** The chunk right after the digested blocks fits in the window. */
  lemma NextChunkFits(s: State, g: int, lag: nat)
    requires Underway(s, lag) && g in s.q && g - 1 <= s.marks.digest
    ensures s.q[g].state == Pending || s.q[g].state == Leased ==> Unfetched(s.q[g], BrakeCeiling(lag, s.marks.digest))
  {
    assert s.q[g].to <= s.hi;
  }

  /** At rest, the first chunk that is not done is a failed one, and the watermarks reach it. */
  lemma LowestOpenIsFailed(s: State, g: int, lag: nat)
    requires Underway(s, lag) && Due(s) && NothingLeft(s, lag)
    requires IsLowestOpen(s.q, g)
    ensures s.q[g].state == Failed && g - 1 <= s.marks.digest
  {
    var end := DoneEndExists(s.q);
    DoneEndReaches(s.q, s.lo, s.hi, end, g);
    if end.Some? {
      assert AdvanceDue(s, end.value);
    }
    assert g - 1 <= s.marks.fetch;
    NextChunkFits(s, g, lag);
  }

  lemma LowestOpenExists(q: Table, f: int) returns (g: int)
    requires f in q && q[f].state != Done
    ensures IsLowestOpen(q, g)
  {
    var open := set h | h in q && q[h].state != Done;
    LowestExists(open, f);
    g :| g in open && forall h <- open :: g <= h;
    assert forall h :: h in q && q[h].state != Done ==> h in open;
  }

  /** At rest, either everything is digested or some chunk was given up on. */
  lemma RestIsTheEnd(s: State, lag: nat)
    requires Underway(s, lag) && Due(s) && NothingLeft(s, lag)
    ensures s.marks.digest == s.hi || exists f <- s.q :: s.q[f].state == Failed
  {
    if f :| f in s.q && s.q[f].state != Done {
      var g := LowestOpenExists(s.q, f);
      LowestOpenIsFailed(s, g, lag);
    } else if s.lo <= s.hi {
      var end := DoneEndExists(s.q);
      AllDoneEndIs(s.q, s.lo, s.hi, end);
      assert AdvanceDue(s, s.hi);
    }
  }

  /**
   * The stages cannot deadlock: with blocks left to digest and no chunk given up on, something other than
   * looking again can happen, at once or, when it takes the lease of a worker that is no more, in time.
   */
  lemma NoDeadlock(s: State, some: nat, lag: nat)
    requires Underway(s, lag) && Due(s) && some in s.workers
    requires s.marks.digest < s.hi && forall f <- s.q :: s.q[f].state != Failed
    ensures CanResume(s, lag) && (NoOrphans(s) ==> CanProgress(s, lag))
  {
    if !CanResume(s, lag) {
      StuckIsLeftNothing(s, some, lag);
      RestIsTheEnd(s, lag);
    } else if NoOrphans(s) && !CanProgress(s, lag) {
      StuckIsAtRest(s, some, lag);
      AtRestIsLeftNothing(s, lag);
      RestIsTheEnd(s, lag);
    }
  }

  // ----- whole runs -------------------------------------------------------------------------------

  ghost function Productive(s: State, steps: seq<Step>, lag: nat): nat
    requires IsRun(s, steps, lag)
    decreases |steps|
  {
    if steps == [] then 0
    else (if IsPoll(s, steps[0]) then 0 else 1) + Productive(Do(s, steps[0], lag), steps[1..], lag)
  }

  /**
   * Over a run with no crash and no lease lost by a worker that still holds it, every step that is no poll is paid for by the measure, attempts stay bounded,
   * and a completed chunk leaves its advance due.
   */
  lemma {:induction false} QuietRun(s: State, steps: seq<Step>, lag: nat, was: Table)
    requires Underway(s, lag) && AttemptsWithin(s, was)
    requires IsRun(s, steps, lag) && QuietAll(s, steps, lag)
    ensures Underway(After(s, steps, lag), lag) && AttemptsWithin(After(s, steps, lag), was)
    ensures After(s, steps, lag).hi == s.hi && After(s, steps, lag).lo == s.lo
    ensures After(s, steps, lag).workers.Keys == s.workers.Keys
    ensures Due(s) || (exists a <- steps :: a.Complete?) ==> Due(After(s, steps, lag))
    ensures Productive(s, steps, lag) + Measure(After(s, steps, lag)) <= Measure(s)
    decreases |steps|
  {
    hide Inv, LeasesHeld, OpenChunksFit, Due, AttemptsWithin, Measure, Do, Enabled;
    if steps != [] {
      var t := Do(s, steps[0], lag);
      StepUnderway(s, steps[0], lag);
      StepDecreases(s, steps[0], lag);
      StepAttempts(s, steps[0], lag, was);
      if Due(s) || steps[0].Complete? {
        StepDue(s, steps[0], lag);
      }
      QuietRun(t, steps[1..], lag, was);
      SameRange(s, steps[0], lag);
      assert forall a <- steps :: a == steps[0] || a in steps[1..];
    }
  }

  lemma {:induction false} SteadyRun(s: State, steps: seq<Step>, lag: nat)
    requires Steady(s, lag) && IsRun(s, steps, lag) && QuietAll(s, steps, lag)
    ensures Steady(After(s, steps, lag), lag)
    decreases |steps|
  {
    hide Steady, Do, Enabled;
    if steps != [] {
      StepSteady(s, steps[0], lag);
      SteadyRun(Do(s, steps[0], lag), steps[1..], lag);
    }
  }

  // ----- giving up ----------------------------------------------------------------------------------

  /**
   * After an error, the chunk of a worker that still has its lease is given up on if and only if that was
   * its fifth attempt; otherwise any worker can claim it again, under any ceiling it fits.
   */
  lemma AfterError(s: State, w: nat, lag: nat)
    requires LeasesHeld(s) && Enabled(s, GiveBack(w), lag)
    ensures var t, f := Do(s, GiveBack(w), lag), s.workers[w].from;
            && f in s.q && f in t.q && t.q[f].attempts == s.q[f].attempts
            && (t.q[f].state == Failed <==> s.q[f].attempts >= 5)
            && (t.q[f].state != Failed ==>
                  forall ceiling :: Claimable(t.q[f], ceiling) <==> ceiling == None || s.q[f].to <= ceiling.value)
  {
    assert Holds(s, w, s.workers[w].from);
  }

  predicate IsErrorOf(s: State, a: Step, f: int) {
    a.GiveBack? && a.w in s.workers && s.workers[a.w].Broken? && s.workers[a.w].from == f
  }

  /** The errors of a chunk in a run. */
  ghost function Errors(s: State, steps: seq<Step>, lag: nat, f: int): nat
    requires IsRun(s, steps, lag)
    decreases |steps|
  {
    if steps == [] then 0
    else (if IsErrorOf(s, steps[0], f) then 1 else 0) + Errors(Do(s, steps[0], lag), steps[1..], lag, f)
  }

  /** Each attempt but one under way, or one that succeeded, ended in an error. */
  ghost predicate Counted(q: Table, f: int, errors: nat) {
    f in q
    && match q[f].state
       case Pending => q[f].attempts == errors < 5
       case Leased => q[f].attempts == errors + 1 <= 5
       case Done => q[f].attempts == errors + 1 <= 5
       case Failed => q[f].attempts == errors == 5
  }

  lemma StepCounted(s: State, a: Step, lag: nat, f: int, errors: nat)
    requires LeasesHeld(s) && NoOrphans(s) && Enabled(s, a, lag) && QuietAt(s, a) && Counted(s.q, f, errors)
    ensures Counted(Do(s, a, lag).q, f, errors + if IsErrorOf(s, a, f) then 1 else 0)
  {
    if a.Complete? || a.GiveBack? {
      assert Holds(s, a.w, s.workers[a.w].from);
    } else if a.Reclaim? {
      assert !Orphan(s, f);
    }
    hide IsDoneEnd, Apply, Can, BrakeCeiling, AllReadable;
  }

  /** A chunk is given up on after five errors and no sooner. */
  lemma {:induction false} FailsAtFive(s: State, steps: seq<Step>, lag: nat, f: int, errors: nat)
    requires Steady(s, lag) && IsRun(s, steps, lag) && QuietAll(s, steps, lag) && Counted(s.q, f, errors)
    ensures Counted(After(s, steps, lag).q, f, errors + Errors(s, steps, lag, f))
    decreases |steps|
  {
    hide Steady, Do, Enabled, Counted, QuietAt;
    if steps != [] {
      StepSteady(s, steps[0], lag);
      assert LeasesHeld(s) && NoOrphans(s) by {
        SteadyHolds(s, lag);
      }
      StepCounted(s, steps[0], lag, f, errors);
      FailsAtFive(Do(s, steps[0], lag), steps[1..], lag, f,
                  errors + if IsErrorOf(s, steps[0], f) then 1 else 0);
    }
  }

  lemma AllCounted(s: State, steps: seq<Step>, lag: nat)
    requires Steady(s, lag) && IsRun(s, steps, lag) && QuietAll(s, steps, lag)
    requires forall f <- s.q :: s.q[f].state == Pending && s.q[f].attempts == 0
    ensures After(s, steps, lag).q.Keys == s.q.Keys
    ensures forall f <- s.q :: f in After(s, steps, lag).q && Counted(After(s, steps, lag).q, f, Errors(s, steps, lag, f))
  {
    SameKeys(s, steps, lag);
    assert forall f <- s.q :: Counted(s.q, f, 0);
    hide Steady, Counted, Errors, QuietAll, IsRun;
    forall f | f in s.q
      ensures f in After(s, steps, lag).q && Counted(After(s, steps, lag).q, f, Errors(s, steps, lag, f))
    {
      FailsAtFive(s, steps, lag, f, 0);
    }
  }

  lemma {:induction false} SameKeys(s: State, steps: seq<Step>, lag: nat)
    requires Steady(s, lag) && IsRun(s, steps, lag) && QuietAll(s, steps, lag)
    ensures After(s, steps, lag).q.Keys == s.q.Keys
    decreases |steps|
  {
    hide Steady, Do, Enabled, QuietAt;
    if steps != [] {
      StepSteady(s, steps[0], lag);
      SteadyHolds(s, lag);
      StepKeepsRows(s, steps[0], lag);
      SameKeys(Do(s, steps[0], lag), steps[1..], lag);
    }
  }

  lemma SteadyHolds(s: State, lag: nat)
    requires Steady(s, lag)
    ensures LeasesHeld(s) && NoOrphans(s)
  {
  }

  lemma SameRange(s: State, a: Step, lag: nat)
    requires Enabled(s, a, lag) && QuietAt(s, a)
    ensures Do(s, a, lag).hi == s.hi && Do(s, a, lag).lo == s.lo
    ensures Do(s, a, lag).workers.Keys == s.workers.Keys && Do(s, a, lag).phase == s.phase
  {
  }

  /** A backfill freshly started on an empty queue is steady, whatever the configured chunk size. */
  lemma StartIsSteady(s: State, to: int, chunkSize: nat, lag: nat)
    requires Init(s) && s.lo <= to <= I64_MAX && (lag == UNBOUNDED_LAG || 1 <= lag <= I64_MAX)
    ensures var a := Start(s.lo, to, EffectiveChunkSize(chunkSize, lag));
            Enabled(s, a, lag) && Steady(Do(s, a, lag), lag) && Do(s, a, lag).hi == to
            && (forall f <- Do(s, a, lag).q :: Do(s, a, lag).q[f].attempts == 0 && Do(s, a, lag).q[f].state == Pending)
            && (lag < UNBOUNDED_LAG ==> WithinLag(Do(s, a, lag), lag))
  {
    var size := EffectiveChunkSize(chunkSize, lag);
    var a := Start(s.lo, to, size);
    AlignedAbove(s.q, s.hi, s.lo, to, size);
    NotClippedAbove(s.q, s.hi, s.lo, to, size);
    SeedKeepsTilingIff(s.q, s.lo, s.hi, s.lo, to, size);
    InitInv(s);
    StepInv(s, a, lag);
    SeedAddsPending(s.q, s.lo, to, size);
    FreshIsSteady(Do(s, a, lag), size, lag);
  }

  /** Nothing claimed, nothing done, every chunk within the lag. */
  lemma FreshIsSteady(t: State, size: nat, lag: nat)
    requires Inv(t) && t.phase.Ready? && Tiled(t.q, t.lo, t.hi) && t.hi <= I64_MAX && AllIdle(t) && t.marks.fetch == t.lo - 1
    requires forall f <- t.q :: t.q[f].state == Pending && t.q[f].attempts == 0 && t.q[f].to - f < size
    requires lag == UNBOUNDED_LAG || size <= lag <= I64_MAX
    requires 1 <= size
    ensures Steady(t, lag) && (lag < UNBOUNDED_LAG ==> WithinLag(t, lag))
  {
    assert forall w, f :: !Holds(t, w, f);
    assert forall f :: !InDonePrefix(t.q, f);
    assert forall b :: !Promised(t, b) && !ToAdvertise(t, b);
  }

  /**
   * A backfill from an empty queue, in full: no chunk is ever claimed a sixth time, one is given up on
   * after its fifth error and no sooner, no more than a fixed number of its steps are anything but looking
   * again, the fetch watermark never passes a chunk that was given up on, and it can only come to rest
   * with every block archived and digested or with a chunk given up on. Then everything below the first
   * such chunk is digested, and the chunks left pending are those beyond the window.
   */
  lemma BackfillRuns(s: State, to: int, chunkSize: nat, lag: nat, steps: seq<Step>, some: nat)
    requires Init(s) && s.lo <= to <= I64_MAX && (lag == UNBOUNDED_LAG || 1 <= lag <= I64_MAX)
    requires some in s.workers
    requires var a := Start(s.lo, to, EffectiveChunkSize(chunkSize, lag));
             Enabled(s, a, lag) && IsRun(Do(s, a, lag), steps, lag) && QuietAll(Do(s, a, lag), steps, lag)
    ensures var started := Do(s, Start(s.lo, to, EffectiveChunkSize(chunkSize, lag)), lag);
            var t := After(started, steps, lag);
            && t.q.Keys == started.q.Keys
            && (forall f <- t.q :: t.q[f].attempts <= 5)
            && (forall f <- t.q :: t.q[f].state == Failed <==> Errors(started, steps, lag, f) == 5)
            && (forall f <- t.q :: t.q[f].state == Failed ==> t.marks.fetch < f)
            && Inv(started) && Productive(started, steps, lag) <= Measure(started)
            && (!CanProgress(t, lag) ==>
                  if forall f <- t.q :: t.q[f].state != Failed
                  then t.marks.digest == t.marks.fetch == to && AllIn(t.lo, to, t.store.ever)
                  else EndsAtFailure(t, lag))
  {
    hide CanProgress, LeasesHeld, OpenChunksFit, Due, Measure, Productive, EndsAtFailure, Do, Enabled, IsRun, Tiled, RowsOk;
    var a := Start(s.lo, to, EffectiveChunkSize(chunkSize, lag));
    StartIsSteady(s, to, chunkSize, lag);
    var started := Do(s, a, lag);
    QuietRun(started, steps, lag, started.q);
    SteadyRun(started, steps, lag);
    var t := After(started, steps, lag);
    AllCounted(started, steps, lag);
    if !CanProgress(t, lag) {
      assert some in t.workers.Keys by {
        SameWorkers(s, a, lag);
      }
      StuckIsAtRest(t, some, lag);
      AtRestIsLeftNothing(t, lag);
      RestIsTheEnd(t, lag);
      if lag < UNBOUNDED_LAG {
        QuietKeepsLead(started, steps, lag);
        BoundedLead(started, steps, lag);
      }
      if f :| f in t.q && t.q[f].state == Failed {
        FailureStops(t, f, lag);
      }
    }
  }

  lemma {:induction false} QuietKeepsLead(s: State, steps: seq<Step>, lag: nat)
    requires IsRun(s, steps, lag) && QuietAll(s, steps, lag)
    ensures AllKeepLead(s, steps, lag)
    decreases |steps|
  {
    hide Do, Enabled;
    if steps != [] {
      QuietKeepsLead(Do(s, steps[0], lag), steps[1..], lag);
    }
  }

  lemma SameWorkers(s: State, a: Step, lag: nat)
    requires Enabled(s, a, lag)
    ensures Do(s, a, lag).workers.Keys == s.workers.Keys
  {
  }

  /**
   * Where a given-up chunk leaves the backfill: the watermarks stop just before the first one,
   * every chunk that ends within the window from there is done or failed, and every chunk that
   * ends beyond it is pending for ever.
   */
  ghost predicate EndsAtFailure(s: State, lag: nat) {
    && (exists g <- s.q :: s.q[g].state == Failed && s.marks.digest == s.marks.fetch == g - 1)
    && (forall f <- s.q :: f <= s.marks.fetch ==> s.q[f].state == Done)
    && (forall f <- s.q :: s.q[f].state == Pending <==>
          BrakeCeiling(lag, s.marks.digest).Some? && BrakeCeiling(lag, s.marks.digest).value < s.q[f].to)
    && (forall f <- s.q :: s.q[f].state != Leased)
  }

  lemma FailureStops(s: State, f: int, lag: nat)
    requires Steady(s, lag) && NothingLeft(s, lag) && f in s.q && s.q[f].state == Failed
    requires lag < UNBOUNDED_LAG ==> WithinLag(s, lag)
    ensures EndsAtFailure(s, lag)
  {
    var g := LowestOpenExists(s.q, f);
    LowestOpenIsFailed(s, g, lag);
    assert forall h <- s.q :: !Orphan(s, h);
  }

  // ----- after a crash ----------------------------------------------------------------------------

  ghost predicate SameUnfetched(q: Table, q': Table) {
    && q'.Keys == q.Keys
    && (forall f <- q :: q'[f].to == q[f].to)
    && (forall f <- q :: q[f].state == Pending || q[f].state == Leased <==> q'[f].state == Pending || q'[f].state == Leased)
  }

  /** Looking again without claiming leaves workers waiting, and at most returns leases. */
  lemma {:induction false} LooksOnlyWait(s: State, looks: seq<Step>, lag: nat, q: Table)
    requires IsRun(s, looks, lag) && (forall p <- looks :: LooksAgain(p)) && SameUnfetched(q, s.q)
    requires forall w <- s.workers :: s.workers[w].Idle? || s.workers[w] == Braked(BrakeCeiling(lag, s.marks.digest))
    ensures var t := After(s, looks, lag);
            && t == s.(workers := t.workers, q := t.q) && SameUnfetched(q, t.q)
            && forall w <- t.workers :: t.workers[w].Idle? || t.workers[w] == Braked(BrakeCeiling(lag, s.marks.digest))
    decreases |looks|
  {
    hide BrakeCeiling, IsDoneEnd, Apply, Can;
    if looks != [] {
      assert looks[0] in looks;
      LooksOnlyWait(Do(s, looks[0], lag), looks[1..], lag, q);
    }
  }

  /**
   * With no chunk in hand, the backfill moves on if and only if the digest has something to read or
   * to commit, or some chunk that is pending or leased fits under the brake: the fetch watermark is
   * advanced by nobody but a worker that has just completed a chunk, and the digest stops at a block it
   * cannot read.
   */
  lemma ResumesIff(s: State, some: nat, lag: nat)
    requires s.phase.Ready? && AllIdle(s) && some in s.workers
    ensures CanResume(s, lag)
            <==> s.ready != s.marks.fetch || (s.marks.digest < s.ready && Readable(s.store, s.marks.digest + 1))
                 || exists f <- s.q :: Unfetched(s.q[f], BrakeCeiling(lag, s.marks.digest))
  {
    hide IsDoneEnd, Apply, Can;
    if s.ready != s.marks.fetch {
      assert Resumes(s, [], DigestRead, lag);
    } else if s.marks.digest < s.ready && Readable(s.store, s.marks.digest + 1) {
      assert Resumes(s, [], DigestCommit(s.marks.digest + 1), lag);
    } else if f :| f in s.q && Unfetched(s.q[f], BrakeCeiling(lag, s.marks.digest)) {
      ReclaimAndClaim(s, some, f, lag);
    } else {
      forall looks: seq<Step>, a: Step
        ensures !Resumes(s, looks, a, lag)
      {
        if (forall p <- looks :: LooksAgain(p)) && IsRun(s, looks, lag) {
          LooksOnlyWait(s, looks, lag, s.q);
          NothingToDo(s, After(s, looks, lag), a, lag);
        }
      }
    }
  }

  lemma NothingToDo(s: State, t: State, a: Step, lag: nat)
    requires t == s.(workers := t.workers, q := t.q) && SameUnfetched(s.q, t.q)
    requires forall w <- t.workers :: t.workers[w].Idle? || t.workers[w] == Braked(BrakeCeiling(lag, s.marks.digest))
    requires s.ready == s.marks.fetch
    requires s.marks.digest < s.ready ==> !Readable(s.store, s.marks.digest + 1)
    requires forall f <- s.q :: !Unfetched(s.q[f], BrakeCeiling(lag, s.marks.digest))
    ensures !(Enabled(t, a, lag) && Quiet(a) && !IsPoll(t, a))
  {
    hide BrakeCeiling, IsDoneEnd, Apply, Can;
  }

  lemma ReclaimAndClaim(s: State, w: nat, f: int, lag: nat)
    requires s.phase.Ready? && w in s.workers && s.workers[w].Idle? && f in s.q && Unfetched(s.q[f], BrakeCeiling(lag, s.marks.digest))
    ensures CanResume(s, lag)
  {
    hide BrakeCeiling, IsDoneEnd, Apply, Can, IsRun;
    var now := s.q[f].expires + 1;
    var s1 := Do(s, Reclaim(now), lag);
    var s2 := Do(s1, ReadBrake(w), lag);
    NoSteps(s2, lag);
    RunsTo(s1, ReadBrake(w), [], s2, lag);
    RunsTo(s, Reclaim(now), [ReadBrake(w)] + [], s2, lag);
    assert Resumes(s, [Reclaim(now)] + ([ReadBrake(w)] + []), Claim(w, f, 0), lag);
  }

  /**
   * A restart seeds its range as well: after a crash that left nothing unfetched, it moves on if
   * and only if one of its tiles is not queued yet and fits under the brake.
   */
  lemma RestartResumesIff(s: State, to: int, size: int, some: nat, lag: nat)
    requires s.phase.Ready? && AllIdle(s) && some in s.workers && s.ready == s.marks.fetch == s.marks.digest
    requires Enabled(s, Start(s.marks.digest + 1, to, size), lag)
    ensures CanResume(Do(s, Start(s.marks.digest + 1, to, size), lag), lag)
            <==> || (exists f <- s.q :: Unfetched(s.q[f], BrakeCeiling(lag, s.marks.digest)))
                 || NewTileFits(s.q, s.marks.digest + 1, to, size, BrakeCeiling(lag, s.marks.digest))
  {
    hide CanResume, BrakeCeiling, NewTileFits;
    var ceiling := BrakeCeiling(lag, s.marks.digest);
    var t := Do(s, Start(s.marks.digest + 1, to, size), lag);
    SeedOnlyAdds(s.q, s.marks.digest + 1, to, size);
    SeedAddsPending(s.q, s.marks.digest + 1, to, size);
    NewTileFitsIff(s.q, s.marks.digest + 1, to, size, ceiling);
    ResumesIff(t, some, lag);
    assert forall f <- t.q :: f !in s.q ==> (Unfetched(t.q[f], ceiling) <==> Claimable(t.q[f], ceiling));
  }

  /**
   * A crash between completing the last open chunk and advancing the watermark: every chunk is
   * done, yet the fetch watermark stays behind, and nothing that runs then moves it, nor does a
   * restart, unless it is asked for blocks whose tile is not queued.
   */
  lemma CrashBeforeAdvanceStalls(s: State, w: nat, to: int, size: int, lag: nat)
    requires Inv(s) && s.phase.Ready? && w in s.workers && s.workers[w].Synced? && s.marks.digest == s.marks.fetch < s.workers[w].from
    requires forall f <- s.q :: f != s.workers[w].from ==> s.q[f].state == Done
    requires size >= 1 && s.marks.digest < to
    ensures var steps := [Complete(w), Crash(s.store.hot)];
            IsRun(s, steps, lag)
            && var t := After(s, steps, lag);
               && (forall f <- t.q :: t.q[f].state == Done) && t.marks.fetch < t.hi && !CanResume(t, lag)
               && Enabled(t, Start(t.marks.digest + 1, to, size), lag)
               && (CanResume(Do(t, Start(t.marks.digest + 1, to, size), lag), lag)
                   <==> NewTileFits(t.q, t.marks.digest + 1, to, size, BrakeCeiling(lag, t.marks.digest)))
  {
    hide CanResume, BrakeCeiling, NewTileFits, IsDoneEnd, Safe, Held;
    assert WorkerOk(s, s.workers[w]);
    var s1 := Do(s, Complete(w), lag);
    var s2 := Do(s1, Crash(s.store.hot), lag);
    NoSteps(s2, lag);
    RunsTo(s1, Crash(s.store.hot), [], s2, lag);
    RunsTo(s, Complete(w), [Crash(s.store.hot)] + [], s2, lag);
    assert [Complete(w)] + ([Crash(s.store.hot)] + []) == [Complete(w), Crash(s.store.hot)];
    ResumesIff(s2, w, lag);
    RestartResumesIff(s2, to, size, w, lag);
  }

  // ----- a restart, in full -----------------------------------------------------------------------

  /** Expired leases are returned and the range is seeded. */
  ghost function RestartedFrom(s: State, now: int, to: int, size: int, lag: nat): State
    requires s.phase.Ready? && Enabled(Do(s, Reclaim(now), lag), Start(s.marks.digest + 1, to, size), lag)
  {
    Do(Do(s, Reclaim(now), lag), Start(s.marks.digest + 1, to, size), lag)
  }

  /**
   * A restart from where careful steps have led, chunks overlapping or not, and whichever leases of the
   * dead process are still running: no more than a fixed number of its steps are anything but looking again, no
   * chunk is tried more than five times or once more than it already was, and once one chunk has been
   * completed it can only come to rest with everything digested or with the first chunk that is not done
   * given up on.
   */
  lemma RestartRuns(s: State, now: int, to: int, size: int, lag: nat, steps: seq<Step>, some: nat)
    requires Inv(s) && AllHot(s) && s.phase.Ready? && AllIdle(s) && some in s.workers
    requires size >= 1 && s.marks.digest < to
    requires var c, a := Do(s, Reclaim(now), lag), Start(s.marks.digest + 1, to, size);
             Enabled(c, a, lag) && Careful(c, a)
    requires var r := RestartedFrom(s, now, to, size, lag);
             r.hi <= I64_MAX && OpenChunksFit(r.q, lag) && IsRun(r, steps, lag) && QuietAll(r, steps, lag)
    ensures var r := RestartedFrom(s, now, to, size, lag);
            var t := After(r, steps, lag);
            && Inv(r) && Inv(t) && AttemptsWithin(t, r.q) && Productive(r, steps, lag) <= Measure(r)
            && (!CanResume(t, lag) ==>
                  NothingLeft(t, lag)
                  && (Due(r) || (exists a <- steps :: a.Complete?) ==>
                        if forall f <- t.q :: t.q[f].state != Failed
                        then t.marks.digest == t.marks.fetch == t.hi && AllIn(t.lo, t.hi, t.store.ever)
                        else FirstOpenFailed(t)))
  {
    hide CanResume, Due, Measure, Productive, IsRun, OpenChunksFit, AttemptsWithin, RowsOk, NewTileFits, QuietAll;
    var r := RestartedFrom(s, now, to, size, lag);
    RestartIsUnderway(s, now, to, size, lag);
    QuietRun(r, steps, lag, r.q);
    var t := After(r, steps, lag);
    if !CanResume(t, lag) {
      assert some in t.workers.Keys;
      StuckIsLeftNothing(t, some, lag);
      if Due(t) {
        RestIsTheEnd(t, lag);
        if f :| f in t.q && t.q[f].state == Failed {
          var g := LowestOpenExists(t.q, f);
          LowestOpenIsFailed(t, g, lag);
        }
      }
    }
  }

  ghost predicate FirstOpenFailed(s: State) {
    exists g <- s.q :: IsLowestOpen(s.q, g) && s.q[g].state == Failed && g - 1 <= s.marks.digest == s.marks.fetch
  }

  lemma RestartIsUnderway(s: State, now: int, to: int, size: int, lag: nat)
    requires Inv(s) && AllHot(s) && s.phase.Ready? && AllIdle(s)
    requires var c, a := Do(s, Reclaim(now), lag), Start(s.marks.digest + 1, to, size);
             Enabled(c, a, lag) && Careful(c, a)
    requires var r := RestartedFrom(s, now, to, size, lag); r.hi <= I64_MAX && OpenChunksFit(r.q, lag)
    ensures var r := RestartedFrom(s, now, to, size, lag);
            Underway(r, lag) && AttemptsWithin(r, r.q) && r.workers == s.workers
  {
    hide Inv, OpenChunksFit, Seeded, TailClipped, Covered;
    var c, a := Do(s, Reclaim(now), lag), Start(s.marks.digest + 1, to, size);
    StepInv(s, Reclaim(now), lag);
    StepStaysHot(s, Reclaim(now), lag);
    StepInv(c, a, lag);
    StepStaysHot(c, a, lag);
    SeedAddsPending(c.q, s.marks.digest + 1, to, size);
    SeedOnlyAdds(c.q, s.marks.digest + 1, to, size);
    NoLeaseHeld(Do(c, a, lag));
  }

  lemma NoLeaseHeld(r: State)
    requires AllIdle(r)
    ensures LeasesHeld(r) && AttemptsWithin(r, r.q)
  {
    assert forall w, f :: !Holds(r, w, f);
  }
}
