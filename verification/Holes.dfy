/**
 * What comes of a step that was not careful: a block that cannot be read, that no open chunk will store
 * and that some chunk reaches past, ends up advertised all the same.
 */
module Holes {
  import opened Backfill
  import opened BlockArchive
  import opened Extrema
  import opened Queue
  import opened Wrappers

  /** A run on from here, with no restart, no crash and no brake. */
  ghost predicate Leads(s: State, t: State) {
    exists steps :: IsRun(s, steps, UNBOUNDED_LAG) && After(s, steps, UNBOUNDED_LAG) == t && forall a <- steps :: Plain(a)
  }

  predicate Plain(a: Step) {
    !a.Start? && !a.Crash? && !a.ResetWatermarks? && !a.ResetChunks?
  }

  lemma Goes(s: State, a: Step, t: State)
    requires Plain(a) && Enabled(s, a, UNBOUNDED_LAG) && Leads(Do(s, a, UNBOUNDED_LAG), t)
    ensures Leads(s, t)
  {
    hide Do, Enabled;
    var rest :| IsRun(Do(s, a, UNBOUNDED_LAG), rest, UNBOUNDED_LAG) && After(Do(s, a, UNBOUNDED_LAG), rest, UNBOUNDED_LAG) == t
                && forall x <- rest :: Plain(x);
    RunsTo(s, a, rest, t, UNBOUNDED_LAG);
    assert forall x <- [a] + rest :: Plain(x);
  }

  lemma Stays(s: State)
    ensures Leads(s, s)
  {
    NoSteps(s, UNBOUNDED_LAG);
    var steps: seq<Step> := [];
    assert IsRun(s, steps, UNBOUNDED_LAG) && After(s, steps, UNBOUNDED_LAG) == s;
  }

  lemma {:induction false} GoesAll(s: State, steps: seq<Step>, t: State)
    requires IsRun(s, steps, UNBOUNDED_LAG) && (forall a <- steps :: Plain(a)) && Leads(After(s, steps, UNBOUNDED_LAG), t)
    ensures Leads(s, t)
    decreases |steps|
  {
    hide Do, Enabled, Leads;
    if steps != [] {
      assert steps[0] in steps && forall a <- steps[1..] :: a in steps;
      GoesAll(Do(s, steps[0], UNBOUNDED_LAG), steps[1..], t);
      Goes(s, steps[0], t);
    }
  }

  lemma Then(s: State, t: State, u: State)
    requires Leads(s, t) && Leads(t, u)
    ensures Leads(s, u)
  {
    var steps :| IsRun(s, steps, UNBOUNDED_LAG) && After(s, steps, UNBOUNDED_LAG) == t && forall a <- steps :: Plain(a);
    GoesAll(s, steps, u);
  }

  predicate NeverStored(s: State, b: int) {
    b !in s.store.hot && b !in s.store.ever
  }

  predicate Gone(s: State, b: int) {
    b !in s.store.hot && !Readable(s.store, b)
  }

  /** Missing blocks stay missing. */
  ghost predicate NoneComesBack(s: State, t: State, from: int, to: int) {
    forall b :: b < from || b > to ==> (NeverStored(s, b) ==> NeverStored(t, b)) && (Gone(s, b) ==> Gone(t, b))
  }

  /** Some chunk still to be done has the block within what is archived of it. */
  ghost predicate WillStore(s: State, b: int) {
    exists f <- s.q :: ToDo(s.q, f) && f <= b <= Least(s.q[f].to, s.end)
  }

  predicate ToDo(q: Table, f: int)
    requires f in q
  {
    q[f].state != Done && q[f].state != Failed
  }

  function OpenUpTo(q: Table, g: int): set<int> {
    set f | f in q && q[f].state != Done && f <= g
  }

  /** Chunks only get done, and none is given up on. */
  ghost predicate Later(s: State, t: State) {
    && t.phase == s.phase && t.lo == s.lo && t.end == s.end && t.marks.digest == s.marks.digest
    && t.workers == s.workers && t.q.Keys == s.q.Keys
    && forall f <- s.q :: t.q[f].to == s.q[f].to && (s.q[f].state == Done ==> t.q[f].state == Done)
                          && (s.q[f].state == Failed <==> t.q[f].state == Failed)
  }

  ghost predicate CaughtUp(s: State) {
    forall e :: IsDoneEnd(s.q, Some(e)) ==> e <= s.marks.fetch
  }

  /** The worker stores the rest of its chunk, up to the end of the backfill, and nothing else. */
  lemma {:induction false} ArchivesRest(s: State, w: nat) returns (t: State, n: int)
    requires s.phase.Ready? && w in s.workers && s.workers[w].Archiving?
    ensures Leads(s, t) && n > LastToArchive(s, s.workers[w])
    ensures t == s.(store := t.store, workers := s.workers[w := s.workers[w].(next := n)])
    ensures NoneComesBack(s, t, s.workers[w].next, LastToArchive(s, s.workers[w]))
    decreases LastToArchive(s, s.workers[w]) - s.workers[w].next
  {
    hide Leads;
    if s.workers[w].next > LastToArchive(s, s.workers[w]) {
      Stays(s);
      assert s.workers[w := s.workers[w]] == s.workers;
      return s, s.workers[w].next;
    }
    var next := Do(s, ArchiveBlock(w), UNBOUNDED_LAG);
    t, n := ArchivesRest(next, w);
    Goes(s, ArchiveBlock(w), t);
  }

  /** A worker takes an open chunk through to the end and advances the watermark. */
  lemma CompletesChunk(s: State, w: nat, f: int) returns (t: State)
    requires s.phase.Ready? && w in s.workers && s.workers[w].Idle?
    requires f in s.q && ToDo(s.q, f)
    ensures Leads(s, t) && Later(s, t) && CaughtUp(t) && t.q[f].state == Done
    ensures NoneComesBack(s, t, f, Least(s.q[f].to, s.end))
  {
    var claimed := Claims(s, w, f);
    var stored, n := ArchivesRest(claimed, w);
    Then(s, claimed, stored);
    t := HandsIn(stored, w);
    Then(s, stored, t);
    hide Leads, IsDoneEnd;
    assert t.workers == s.workers;
  }

  lemma Claims(s: State, w: nat, f: int) returns (t: State)
    requires s.phase.Ready? && w in s.workers && s.workers[w].Idle?
    requires f in s.q && ToDo(s.q, f)
    ensures Leads(s, t) && t == s.(q := t.q, workers := t.workers) && Later(s, t.(workers := s.workers))
    ensures w in t.workers && t.workers == s.workers[w := t.workers[w]] && t.workers[w].Archiving?
    ensures t.workers[w].from == t.workers[w].next == f && t.workers[w].to == s.q[f].to
  {
    hide Leads, IsDoneEnd, Apply, Can, Seeded;
    var s1 := Do(s, Reclaim(s.q[f].expires + 1), UNBOUNDED_LAG);
    var s2 := Do(s1, ReadBrake(w), UNBOUNDED_LAG);
    t := Do(s2, Claim(w, f, 0), UNBOUNDED_LAG);
    Stays(t);
    Goes(s2, Claim(w, f, 0), t);
    Goes(s1, ReadBrake(w), t);
    Goes(s, Reclaim(s.q[f].expires + 1), t);
  }

  lemma HandsIn(s: State, w: nat) returns (t: State)
    requires s.phase.Ready? && w in s.workers && s.workers[w].Archiving? && s.workers[w].from in s.q
    requires s.q[s.workers[w].from].state != Failed && s.workers[w].next > LastToArchive(s, s.workers[w])
    ensures Leads(s, t) && Later(s, t.(workers := s.workers)) && CaughtUp(t)
    ensures t.workers == s.workers[w := Idle] && t.q[s.workers[w].from].state == Done
    ensures NoneComesBack(s, t, 1, 0)
  {
    hide Leads, IsDoneEnd, Can, Seeded;
    var s1 := Do(s, FinishArchive(w), UNBOUNDED_LAG);
    var s2 := Do(s1, Sync(w), UNBOUNDED_LAG);
    var s3 := Do(s2, Complete(w), UNBOUNDED_LAG);
    t := Advances(s3, w);
    Goes(s2, Complete(w), t);
    Goes(s1, Sync(w), t);
    Goes(s, FinishArchive(w), t);
  }

  lemma Advances(s: State, w: nat) returns (t: State)
    requires s.phase.Ready? && w in s.workers && s.workers[w].Completed?
    ensures Leads(s, t) && CaughtUp(t) && t == s.(marks := t.marks, workers := s.workers[w := Idle])
    ensures t.marks.digest == s.marks.digest
  {
    hide Leads, Apply, Can, Seeded;
    var end := DoneEndExists(s.q);
    var s1 := Do(s, ReadDoneEnd(w, end), UNBOUNDED_LAG);
    t := Do(s1, Advance(w), UNBOUNDED_LAG);
    Stays(t);
    Goes(s1, Advance(w), t);
    Goes(s, ReadDoneEnd(w, end), t);
  }

  /** Every open chunk up to one of them can be completed, one after the other, if none was given up on. */
  lemma {:induction false} CompletesUpTo(s: State, w: nat, g: int) returns (t: State)
    requires s.phase.Ready? && w in s.workers && s.workers[w].Idle?
    requires (forall f <- s.q :: f <= g ==> s.q[f].state != Failed) && exists f <- s.q :: f <= g && s.q[f].state != Done
    ensures Leads(s, t) && Later(s, t) && CaughtUp(t) && forall f <- t.q :: f <= g ==> t.q[f].state == Done
    ensures forall b :: !WillStore(s, b) ==> (NeverStored(s, b) ==> NeverStored(t, b)) && (Gone(s, b) ==> Gone(t, b))
    decreases |OpenUpTo(s.q, g)|
  {
    hide Leads, CaughtUp;
    var f :| f in s.q && f <= g && s.q[f].state != Done;
    var next := CompletesChunk(s, w, f);
    forall h | h in OpenUpTo(next.q, g)
      ensures h in OpenUpTo(s.q, g) - {f}
    {
      assert h in s.q && h != f;
    }
    FewerChunks(OpenUpTo(next.q, g), OpenUpTo(s.q, g), f);
    if exists h <- next.q :: h <= g && next.q[h].state != Done {
      t := CompletesUpTo(next, w, g);
      Then(s, next, t);
    } else {
      t := next;
    }
  }

  /** And some chunk beyond, if those are all done. */
  lemma Completes(s: State, w: nat, g: int) returns (t: State)
    requires s.phase.Ready? && w in s.workers && s.workers[w].Idle?
    requires (forall f <- s.q :: f <= g ==> s.q[f].state != Failed) && exists f <- s.q :: ToDo(s.q, f)
    ensures Leads(s, t) && Later(s, t) && CaughtUp(t) && forall f <- t.q :: f <= g ==> t.q[f].state == Done
    ensures forall b :: !WillStore(s, b) ==> (NeverStored(s, b) ==> NeverStored(t, b)) && (Gone(s, b) ==> Gone(t, b))
  {
    hide Leads, CaughtUp;
    if exists f <- s.q :: f <= g && s.q[f].state != Done {
      t := CompletesUpTo(s, w, g);
    } else {
      var f :| f in s.q && ToDo(s.q, f);
      t := CompletesChunk(s, w, f);
    }
  }

  lemma FewerChunks(fewer: set<int>, open: set<int>, f: int)
    requires f in open && fewer <= open - {f}
    ensures |fewer| < |open|
  {
    assert |open - {f}| == |open| - 1;
    var rest := open - {f} - fewer;
    assert open - {f} == fewer + rest;
  }

  /** A restart is careful if and only if it leaves no block of the queue that no chunk will store. */
  lemma CarefulIff(s: State, from: int, to: int, size: int)
    requires Inv(s) && Enabled(s, Start(from, to, size), UNBOUNDED_LAG)
    ensures var r := Do(s, Start(from, to, size), UNBOUNDED_LAG);
            Careful(s, Start(from, to, size))
            <==> forall b :: r.lo <= b <= r.hi ==>
                   Covers(r.q, b) && (forall f <- r.q :: r.q[f].state != Done && f <= b <= r.q[f].to ==> b <= r.end)
  {
    SeedCoverIs(s, from, to, size, UNBOUNDED_LAG);
    SeedOnlyAdds(s.q, from, to, size);
    SeedAddsPending(s.q, from, to, size);
    hide Seeded, NoGap, MarksOk, PromisesOk, WorkersOk, Covers, AllReadable;
    var r := Do(s, Start(from, to, size), UNBOUNDED_LAG);
    assert r.lo <= from <= to == r.end <= r.hi;
    if f :| f in s.q && s.q[f].state != Done && s.q[f].to > to {
      var b := r.q[f].to;
      assert f in r.q && r.q[f] == s.q[f] && f <= b <= r.hi;
      assert Covers(r.q, b) ==> !(forall h <- r.q :: r.q[h].state != Done && h <= b <= r.q[h].to ==> b <= r.end);
    } else {
      assert forall f <- r.q :: r.q[f].state != Done ==> r.q[f].to <= r.end;
    }
  }

  /** A chunk reaches past the block, and none up to it was given up on. */
  predicate Reaching(q: Table, g: int, b: int) {
    g in q && g <= q[g].to && b <= q[g].to && forall f <- q :: f <= g ==> q[f].state != Failed
  }

  /**
   * A restart that leaves some chunk to be done. Take a block that cannot be read, and that no chunk will
   * store, because none covers it, it lies beyond the stop, or its chunk counts as done; if some chunk
   * reaches past it with none given up on before, the run can go on to advertise it, still not readable and
   * still to be digested, and still never stored if it never was.
   */
  lemma RestartLeadsToAHole(s: State, from: int, to: int, size: int, w: nat, b: int, g: int)
    requires Enabled(s, Start(from, to, size), UNBOUNDED_LAG) && w in s.workers
    requires var r := Do(s, Start(from, to, size), UNBOUNDED_LAG);
             (exists f <- r.q :: ToDo(r.q, f)) && r.lo <= b && Gone(r, b) && !WillStore(r, b) && Reaching(r.q, g, b)
    ensures var r := Do(s, Start(from, to, size), UNBOUNDED_LAG);
            exists t :: Leads(r, t) && t.lo <= b <= t.marks.fetch && !Readable(t.store, b)
                        && t.marks.digest == s.marks.digest && (NeverStored(r, b) ==> NeverStored(t, b))
  {
    var r := Do(s, Start(from, to, size), UNBOUNDED_LAG);
    var t := Completes(r, w, g);
    hide Leads, Do, Enabled;
    var end := DoneEndExists(t.q);
    assert InDonePrefix(t.q, g);
    assert end.Some? && b <= end.value;
  }

  lemma {:induction false} PlainIsCarefulFor(s: State, steps: seq<Step>, b: int)
    requires IsRun(s, steps, UNBOUNDED_LAG) && (forall a <- steps :: Plain(a)) && s.phase.Ready?
    ensures AllCarefulFor(s, steps, UNBOUNDED_LAG, b) && After(s, steps, UNBOUNDED_LAG).phase.Ready?
    decreases |steps|
  {
    hide CarefulFor;
    if steps != [] {
      assert steps[0] in steps && forall a <- steps[1..] :: a in steps;
      NotARestart(s, steps[0], b);
      PlainStaysReady(s, steps[0]);
      hide Do, Enabled;
      PlainIsCarefulFor(Do(s, steps[0], UNBOUNDED_LAG), steps[1..], b);
    }
  }

  lemma PlainStaysReady(s: State, a: Step)
    requires Enabled(s, a, UNBOUNDED_LAG) && Plain(a) && s.phase.Ready?
    ensures Do(s, a, UNBOUNDED_LAG).phase.Ready?
  {
  }

  /** A block that has not been on disk is advertised by no run on from where a restart was careful for it. */
  lemma CarefulLeadsToNone(s: State, from: int, to: int, size: int, b: int, t: State)
    requires Enabled(s, Start(from, to, size), UNBOUNDED_LAG) && Once(s, b) && CarefulFor(s, Start(from, to, size), b)
    requires Leads(Do(s, Start(from, to, size), UNBOUNDED_LAG), t)
    ensures t.lo <= b <= t.marks.fetch ==> b in t.store.ever
  {
    var r := Do(s, Start(from, to, size), UNBOUNDED_LAG);
    assert r.phase.Ready?;
    StepOnce(s, Start(from, to, size), UNBOUNDED_LAG, b);
    var steps :| IsRun(r, steps, UNBOUNDED_LAG) && After(r, steps, UNBOUNDED_LAG) == t && forall a <- steps :: Plain(a);
    PlainIsCarefulFor(r, steps, b);
    RunOnce(r, steps, UNBOUNDED_LAG, b);
    hide Do, Enabled, CarefulFor;
  }

  /** What a restart is not careful for, no chunk will store. */
  lemma CarelessIsNotStored(s: State, from: int, to: int, size: int, b: int)
    requires Enabled(s, Start(from, to, size), UNBOUNDED_LAG) && !CarefulFor(s, Start(from, to, size), b)
    ensures var r := Do(s, Start(from, to, size), UNBOUNDED_LAG); !WillStore(r, b) && b !in r.store.ever && r.store == s.store
  {
    SeedCoversBlockIff(s.q, from, to, size, b);
    SeedOnlyAdds(s.q, from, to, size);
    hide Seeded, AllReadable, TileStart;
  }

  /**
   * Which restarts do harm: a block not stored so far, with a chunk that reaches past it and none given up
   * on before, can be advertised by the runs from there, never having been on disk, if and only if the
   * restart was not careful for it.
   */
  lemma RestartDoesHarmIff(s: State, from: int, to: int, size: int, w: nat, b: int, g: int)
    requires Enabled(s, Start(from, to, size), UNBOUNDED_LAG) && w in s.workers
    requires Valid(s.store) && Once(s, b) && b !in s.store.hot
    requires var r := Do(s, Start(from, to, size), UNBOUNDED_LAG);
             (exists f <- r.q :: ToDo(r.q, f)) && r.lo <= b && Reaching(r.q, g, b)
    ensures var r := Do(s, Start(from, to, size), UNBOUNDED_LAG);
            (exists t :: Leads(r, t) && t.lo <= b <= t.marks.fetch && b !in t.store.ever)
            <==> !CarefulFor(s, Start(from, to, size), b)
  {
    var r := Do(s, Start(from, to, size), UNBOUNDED_LAG);
    if CarefulFor(s, Start(from, to, size), b) {
      forall t | Leads(r, t)
        ensures t.lo <= b <= t.marks.fetch ==> b in t.store.ever
      {
        CarefulLeadsToNone(s, from, to, size, b, t);
      }
    } else {
      CarelessIsNotStored(s, from, to, size, b);
      assert Gone(r, b) && NeverStored(r, b);
      hide Do, Enabled, Leads, Once;
      RestartLeadsToAHole(s, from, to, size, w, b, g);
    }
  }
}
