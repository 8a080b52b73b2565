/**
 * The fetch work queue and the pipeline watermarks, as the tables they are stored in. Each
 * method is one SQL statement, except seeding, which is one insert per chunk.
 */
module Queue {
  import opened Extrema
  import opened Wrappers

  datatype ChunkState = Pending | Leased | Done | Failed

  /** A row of the queue; the table is keyed by the chunk's first block. */
  datatype Row = Row(to: int, state: ChunkState, attempts: nat, expires: int)

  type Table = map<int, Row>

  // ----- the statements, as functions of the table ----------------------------------------------

  function TileEnd(start: int, to: int, size: int): int {
    if start + size - 1 < to then start + size - 1 else to
  }

  /** Tile `from..=to`; a start already queued is skipped, and tiling moves on past its tile. */
  function Seeded(q: Table, from: int, to: int, size: int): Table
    decreases (to - from)
  {
    if to < from || size < 1 then q else
    var end := TileEnd(from, to, size);
    Seeded(if from in q then q else q[from := Row(end, Pending, 0, 0)], end + 1, to, size)
  }

  predicate Claimable(row: Row, ceiling: Option<int>) {
    row.state == Pending && (ceiling == None || row.to <= ceiling.value)
  }

  ghost predicate IsLowestClaimable(q: Table, ceiling: Option<int>, from: int) {
    && from in q && Claimable(q[from], ceiling)
    && forall f <- q :: Claimable(q[f], ceiling) ==> from <= f
  }

  function Claimed(q: Table, from: int, expires: int): Table
    requires from in q
  {
    q[from := q[from].(state := Leased, attempts := q[from].attempts + 1, expires := expires)]
  }

  /** Completing, releasing and failing look at nothing but the key. */
  function WithState(q: Table, from: int, state: ChunkState): Table {
    if from in q then q[from := q[from].(state := state)] else q
  }

  function Reclaimed(q: Table, now: int): Table {
    map f | f in q :: if q[f].state == Leased && q[f].expires < now then q[f].(state := Pending) else q[f]
  }

  /** Done, and below every chunk that is not. */
  ghost predicate InDonePrefix(q: Table, from: int) {
    from in q && q[from].state == Done && forall f <- q :: q[f].state != Done ==> from < f
  }

  ghost predicate IsDoneEnd(q: Table, end: Option<int>) {
    match end
    case None => forall f <- q :: !InDonePrefix(q, f)
    case Some(e) => (exists f <- q :: InDonePrefix(q, f) && q[f].to == e)
                    && forall f <- q :: InDonePrefix(q, f) ==> q[f].to <= e
  }

  datatype Watermarks = Watermarks(fetch: int, digest: int, archive: int)

  predicate Ordered(m: Watermarks) {
    m.archive <= m.digest <= m.fetch
  }

  /** A new row: everything up to `at` counts as done. */
  function InitialMarks(at: int): Watermarks {
    Watermarks(at, at, Least(0, at))
  }

  function ResetMarks(m: Option<Watermarks>, to: int): Watermarks {
    match m
    case None => InitialMarks(to)
    case Some(m) => Watermarks(to, to, Least(m.archive, to))
  }

  /** The same chunks, with the same bounds and attempts. */
  ghost predicate SameChunks(q: Table, q': Table) {
    q'.Keys == q.Keys && forall f <- q :: q'[f].to == q[f].to && q'[f].attempts == q[f].attempts
  }

  /** At most one of them changed otherwise. */
  ghost predicate OnlyRow(q: Table, q': Table, from: int) {
    SameChunks(q, q') && forall f <- q :: f != from ==> q'[f] == q[f]
  }

  function PendingChunks(q: Table): set<int> {
    set f | f in q && q[f].state == Pending
  }

  lemma WithStateKeeps(q: Table, from: int, state: ChunkState)
    ensures OnlyRow(q, WithState(q, from, state), from)
    ensures forall lo, hi :: Covered(q, lo, hi) ==> Covered(WithState(q, from, state), lo, hi)
  {
    var q' := WithState(q, from, state);
    forall lo, hi | Covered(q, lo, hi)
      ensures Covered(q', lo, hi)
    {
      SameCover(q, q', lo, hi);
    }
  }

  /** Changing only states, attempts and leases covers what was covered. */
  lemma SameCover(q: Table, q': Table, lo: int, hi: int)
    requires Covered(q, lo, hi) && q'.Keys == q.Keys && forall f <- q :: q'[f].to == q[f].to
    ensures Covered(q', lo, hi)
  {
    assert forall f :: f in q <==> f in q';
    forall b | lo <= b <= hi
      ensures Covers(q', b)
    {
      assert Covers(q, b);
    }
  }

  /** The ends of the done prefix have a highest one, which is the done end, unless there are none. */
  lemma EndOfPrefix(q: Table, prefix: set<int>, ends: set<int>)
    requires forall f :: f in prefix <==> InDonePrefix(q, f)
    requires prefix <= q.Keys && ends == set f | f in prefix :: q[f].to
    ensures prefix == {} ==> IsDoneEnd(q, None)
    ensures prefix != {} ==> exists e :: e in ends && forall f <- ends :: f <= e
    ensures forall e :: e in ends && (forall f <- ends :: f <= e) ==> IsDoneEnd(q, Some(e))
  {
    assert forall f :: f in prefix ==> q[f].to in ends;
    if some :| some in prefix {
      HighestExists(ends, q[some].to);
    }
  }

  lemma DoneEndExists(q: Table) returns (end: Option<int>)
    ensures IsDoneEnd(q, end)
  {
    var prefix := set f | f in q && InDonePrefix(q, f);
    var ends := set f | f in prefix :: q[f].to;
    EndOfPrefix(q, prefix, ends);
    if e :| e in ends && forall f <- ends :: f <= e {
      return Some(e);
    }
    return None;
  }

  class Repo {
    var rows: Table
    var marks: Option<Watermarks>

    constructor ()
      ensures rows == map[] && marks == None
    {
      rows, marks := map[], None;
    }

    method SeedChunks(from: int, to: int, size: int) returns (inserted: nat)
      modifies `rows
      ensures rows == Seeded(old(rows), from, to, size)
      ensures inserted == |rows| - |old(rows)|
    {
      inserted := 0;
      if to < from || size < 1 {
        return;
      }
      var start := from;
      while start <= to
        invariant Seeded(rows, start, to, size) == Seeded(old(rows), from, to, size)
        invariant inserted == |rows| - |old(rows)|
        decreases (to - start)
      {
        var end := TileEnd(start, to, size);
        if start !in rows {
          rows := rows[start := Row(end, Pending, 0, 0)];
          inserted := inserted + 1;
        }
        assert end + 1 > start;
        start := end + 1;
      }
    }

    method ClaimChunk(ceiling: Option<int>, expires: int) returns (claimed: Option<(int, int, nat)>)
      modifies `rows
      ensures match claimed
              case None => rows == old(rows) && forall f <- rows :: !Claimable(rows[f], ceiling)
              case Some((from, to, attempts)) =>
                IsLowestClaimable(old(rows), ceiling, from) && rows == Claimed(old(rows), from, expires)
                && to == rows[from].to && attempts == rows[from].attempts
    {
      var candidates := set f | f in rows && Claimable(rows[f], ceiling);
      if some :| some in candidates {
        LowestExists(candidates, some);
      } else {
        forall f | f in rows
          ensures !Claimable(rows[f], ceiling)
        {
          assert f !in candidates;
        }
        return None;
      }
      var from :| from in candidates && forall f <- candidates :: from <= f;
      forall f | f in rows && Claimable(rows[f], ceiling)
        ensures from <= f
      {
        assert f in candidates;
      }
      rows := Claimed(rows, from, expires);
      return Some((from, rows[from].to, rows[from].attempts));
    }

    /** The chunk is done; what was below every open chunk still is, and nothing is uncovered. */
    method CompleteChunk(from: int)
      modifies `rows
      ensures rows == WithState(old(rows), from, Done)
      ensures OnlyRow(old(rows), rows, from) && (from in rows ==> rows[from].state == Done)
      ensures forall f :: InDonePrefix(old(rows), f) ==> InDonePrefix(rows, f)
      ensures forall lo, hi :: Covered(old(rows), lo, hi) ==> Covered(rows, lo, hi)
    {
      WithStateKeeps(rows, from, Done);
      rows := WithState(rows, from, Done);
    }

    /** The chunk can be claimed again, with its attempts still counted, and ends the done prefix. */
    method ReleaseChunk(from: int)
      modifies `rows
      ensures rows == WithState(old(rows), from, Pending)
      ensures OnlyRow(old(rows), rows, from)
      ensures from in rows ==>
                && (forall ceiling :: Claimable(rows[from], ceiling) <==> ceiling == None || rows[from].to <= ceiling.value)
                && forall f :: InDonePrefix(rows, f) ==> f < from && InDonePrefix(old(rows), f)
      ensures forall lo, hi :: Covered(old(rows), lo, hi) ==> Covered(rows, lo, hi)
    {
      WithStateKeeps(rows, from, Pending);
      rows := WithState(rows, from, Pending);
    }

    /** While it is failed the chunk is neither claimed nor reclaimed, and it ends the done prefix. */
    method FailChunk(from: int)
      modifies `rows
      ensures rows == WithState(old(rows), from, Failed)
      ensures OnlyRow(old(rows), rows, from)
      ensures from in rows ==>
                && (forall ceiling :: !Claimable(rows[from], ceiling))
                && (forall now :: Reclaimed(rows, now)[from] == rows[from])
                && forall f :: InDonePrefix(rows, f) ==> f < from && InDonePrefix(old(rows), f)
      ensures forall lo, hi :: Covered(old(rows), lo, hi) ==> Covered(rows, lo, hi)
    {
      WithStateKeeps(rows, from, Failed);
      rows := WithState(rows, from, Failed);
    }

    /** No expired lease is left, nothing else changes, and the result is how many chunks came back. */
    method ReclaimExpiredChunks(now: int) returns (reclaimed: nat)
      modifies `rows
      ensures rows == Reclaimed(old(rows), now)
      ensures SameChunks(old(rows), rows)
      ensures forall f <- rows :: rows[f].state == Leased ==> now <= rows[f].expires
      ensures forall f <- rows :: rows[f] == old(rows)[f] || (rows[f].state == Pending && old(rows)[f].state == Leased)
      ensures forall f :: InDonePrefix(rows, f) <==> InDonePrefix(old(rows), f)
      ensures reclaimed == |PendingChunks(rows)| - |PendingChunks(old(rows))|
    {
      var expired := set f | f in rows && rows[f].state == Leased && rows[f].expires < now;
      reclaimed := |expired|;
      ghost var pending := PendingChunks(rows);
      rows := Reclaimed(rows, now);
      assert PendingChunks(rows) == pending + expired && pending !! expired;
      assert forall f :: InDonePrefix(rows, f) <==> InDonePrefix(old(rows), f) by {
        assert forall f :: f in rows <==> f in old(rows);
      }
    }

    method ContiguousDoneEnd() returns (end: Option<int>)
      ensures IsDoneEnd(rows, end)
    {
      var open := set f | f in rows && rows[f].state != Done;
      var prefix := set f | f in rows && rows[f].state == Done && forall g <- open :: f < g;
      forall f | f in rows
        ensures f in prefix <==> InDonePrefix(rows, f)
      {
        assert forall g :: g in open <==> g in rows && rows[g].state != Done;
      }
      var ends := set f | f in prefix :: rows[f].to;
      EndOfPrefix(rows, prefix, ends);
      if e :| e in ends && forall f <- ends :: f <= e {
        return Some(e);
      }
      return None;
    }

    method InitWatermarks(at: int)
      modifies `marks
      ensures marks == if old(marks) == None then Some(InitialMarks(at)) else old(marks)
      ensures old(marks) == None ==>
                && marks.Some? && Ordered(marks.value) && marks.value.fetch == marks.value.digest == at
                && marks.value.archive <= 0 && (marks.value.archive < 0 ==> marks.value.archive == at)
    {
      if marks == None {
        marks := Some(InitialMarks(at));
      }
    }

    method ResetWatermarks(to: int)
      modifies `marks
      ensures marks == Some(ResetMarks(old(marks), to))
      ensures Ordered(marks.value) && marks.value.fetch == marks.value.digest == to
      ensures match old(marks)
              case Some(was) => marks.value.archive <= was.archive && (marks.value.archive < was.archive <==> to < was.archive)
              case None => marks.value.archive <= 0 && (marks.value.archive < 0 ==> marks.value.archive == to)
    {
      marks := Some(ResetMarks(marks, to));
    }

    method AdvanceFetchWatermark(to: int)
      modifies `marks
      ensures marks == if old(marks) == None then None
                       else Some(old(marks).value.(fetch := Greatest(old(marks).value.fetch, to)))
      ensures marks.Some? <==> old(marks).Some?
      ensures marks.Some? ==>
                var was, now := old(marks).value, marks.value;
                && was.fetch <= now.fetch && to <= now.fetch && (now.fetch == was.fetch || now.fetch == to)
                && now.digest == was.digest && now.archive == was.archive && (Ordered(was) ==> Ordered(now))
    {
      if marks.Some? {
        marks := Some(marks.value.(fetch := Greatest(marks.value.fetch, to)));
      }
    }
  }

  /** A claimed chunk comes back to the pool if and only if its lease has run out. */
  lemma LeaseRunsOutIff(q: Table, from: int, expires: int, now: int)
    requires from in q
    ensures var r := Reclaimed(Claimed(q, from, expires), now)[from];
            (r.state == Pending <==> expires < now) && r.attempts == q[from].attempts + 1 && r.to == q[from].to
  {
  }

  /**
   * Moving the watermarks back: they stay in order, and the archive watermark is lowered just as
   * far as the order asks, never raised.
   */
  lemma ResetLowersArchive(m: Watermarks, to: int)
    ensures var r := ResetMarks(Some(m), to);
            Ordered(r) && r.fetch == r.digest == to
            && r.archive <= m.archive && (r.archive < m.archive <==> to < m.archive)
    ensures var r := ResetMarks(None, to);
            Ordered(r) && r.fetch == r.digest == to && r.archive <= 0 && (r.archive < 0 ==> r.archive == to)
  {
  }

  // ----- what the queue has to look like for its done prefix to mean something ---------------------

  ghost predicate Covers(q: Table, block: int) {
    exists f <- q :: f <= block <= q[f].to
  }

  /** The chunks cover each block of `lo..=hi` at least once, and none beyond. */
  ghost predicate Covered(q: Table, lo: int, hi: int) {
    && lo <= hi + 1
    && EndBy(q, hi)
    && (forall b :: lo <= b <= hi ==> Covers(q, b))
  }

  ghost predicate EndBy(q: Table, hi: int) {
    forall f <- q :: f <= q[f].to <= hi
  }

  /** They cover nothing else, and each block only once. */
  ghost predicate Tiled(q: Table, lo: int, hi: int) {
    && Covered(q, lo, hi)
    && (forall f <- q :: lo <= f)
    && (forall f, g :: f in q && g in q && f < g ==> q[f].to < g)
  }

  /** The blocks up to the done end all lie in done chunks, even where chunks overlap. */
  lemma DonePrefixHasNoHole(q: Table, lo: int, hi: int, end: int, block: int)
    requires Covered(q, lo, hi) && IsDoneEnd(q, Some(end)) && lo <= block <= end
    ensures end <= hi && exists g <- q :: q[g].state == Done && g <= block <= q[g].to
  {
    var f :| f in q && InDonePrefix(q, f) && q[f].to == end;
    assert Covers(q, block);
  }

  /** With every chunk done, the done prefix is all of them. */
  lemma AllDoneEndIs(q: Table, lo: int, hi: int, end: Option<int>)
    requires Covered(q, lo, hi) && IsDoneEnd(q, end) && lo <= hi && forall f <- q :: q[f].state == Done
    ensures end == Some(hi)
  {
    assert Covers(q, hi);
    var f :| f in q && f <= hi <= q[f].to;
    assert InDonePrefix(q, f);
  }

  ghost predicate IsLowestOpen(q: Table, g: int) {
    g in q && q[g].state != Done && forall f <- q :: q[f].state != Done ==> g <= f
  }

  /** It reaches every block before the lowest chunk that is not done. */
  lemma DoneEndReaches(q: Table, lo: int, hi: int, end: Option<int>, g: int)
    requires Covered(q, lo, hi) && IsDoneEnd(q, end) && IsLowestOpen(q, g)
    ensures g <= lo || (end.Some? && g - 1 <= end.value)
  {
    if g > lo {
      assert Covers(q, g - 1);
      var f :| f in q && f <= g - 1 <= q[f].to;
      assert InDonePrefix(q, f);
    }
  }

  /** Where the done prefix stops otherwise: just before the lowest chunk that is not done. */
  lemma DoneEndIs(q: Table, lo: int, hi: int, end: Option<int>, g: int)
    requires Tiled(q, lo, hi) && IsDoneEnd(q, end) && IsLowestOpen(q, g)
    ensures end == if g == lo then None else Some(g - 1)
  {
    assert forall f :: InDonePrefix(q, f) ==> q[f].to < g;
    if g == lo {
      assert forall f :: !InDonePrefix(q, f);
    } else {
      assert Covers(q, g - 1);
      var f :| f in q && f <= g - 1 <= q[f].to;
      assert InDonePrefix(q, f) && q[f].to == g - 1;
    }
  }

  // ----- seeding --------------------------------------------------------------------------------

  /** Every tile that starts in the queued range starts at a queued chunk and ends in the range. */
  predicate Aligned(q: Table, hi: int, from: int, to: int, size: int)
    decreases (to - from)
  {
    to < from || size < 1
    || (&& (from <= hi ==> from in q && TileEnd(from, to, size) <= hi)
        && Aligned(q, hi, TileEnd(from, to, size) + 1, to, size))
  }

  /**
   * Seeding a tiled queue leaves it tiled through `to` if and only if the tiles fall on the
   * chunks already queued.
   */
  lemma SeedKeepsTilingIff(q: Table, lo: int, hi: int, from: int, to: int, size: int)
    requires Tiled(q, lo, hi) && lo <= from <= hi + 1 && size >= 1
    ensures Tiled(Seeded(q, from, to, size), lo, Greatest(hi, to)) <==> Aligned(q, hi, from, to, size)
  {
    if Aligned(q, hi, from, to, size) {
      AlignedSeedTiles(q, lo, hi, from, to, size);
    } else {
      MisalignedSeedDoesNot(q, lo, hi, from, to, size, Greatest(hi, to));
    }
  }

  lemma {:induction false} AlignedSeedTiles(q: Table, lo: int, hi: int, from: int, to: int, size: int)
    requires Tiled(q, lo, hi) && lo <= from <= hi + 1 && size >= 1 && Aligned(q, hi, from, to, size)
    ensures Tiled(Seeded(q, from, to, size), lo, Greatest(hi, to))
    decreases (to - from)
  {
    if from <= to {
      var end := TileEnd(from, to, size);
      if from <= hi {
        AlignedSeedTiles(q, lo, hi, end + 1, to, size);
      } else {
        assert from !in q;
        var next := q[from := Row(end, Pending, 0, 0)];
        TiledAppended(q, lo, hi, Row(end, Pending, 0, 0));
        AlignedAbove(next, end, end + 1, to, size);
        AlignedSeedTiles(next, lo, end, end + 1, to, size);
      }
    }
  }

  lemma TiledAppended(q: Table, lo: int, hi: int, row: Row)
    requires Tiled(q, lo, hi) && hi < row.to
    ensures Tiled(q[hi + 1 := row], lo, row.to)
  {
    var next := q[hi + 1 := row];
    forall b | lo <= b <= row.to
      ensures Covers(next, b)
    {
      if b <= hi {
        assert Covers(q, b);
        var f :| f in q && f <= b <= q[f].to;
        assert f in next && next[f] == q[f];
      } else {
        assert hi + 1 in next;
      }
    }
  }

  lemma {:induction false} AlignedAbove(q: Table, hi: int, from: int, to: int, size: int)
    requires hi < from
    ensures Aligned(q, hi, from, to, size)
    decreases (to - from)
  {
    if from <= to && size >= 1 {
      AlignedAbove(q, hi, TileEnd(from, to, size) + 1, to, size);
    }
  }

  /** Seeding never touches a queued chunk, and only adds chunks from `from` on. */
  lemma {:induction false} SeedOnlyAdds(q: Table, from: int, to: int, size: int)
    ensures forall f <- q :: f in Seeded(q, from, to, size) && Seeded(q, from, to, size)[f] == q[f]
    ensures forall f <- Seeded(q, from, to, size) :: f in q || from <= f
    decreases (to - from)
  {
    if from <= to && size >= 1 {
      var next := if from in q then q else q[from := Row(TileEnd(from, to, size), Pending, 0, 0)];
      SeedOnlyAdds(next, TileEnd(from, to, size) + 1, to, size);
    }
  }

  /** A tile that starts inside a queued chunk overlaps it. */
  lemma NewChunkOverlaps(q: Table, lo: int, hi: int, from: int, to: int, size: int, top: int)
    requires Covered(q, lo, hi) && lo <= from <= hi && from <= to && size >= 1 && from !in q
    ensures !Tiled(Seeded(q, from, to, size), lo, top)
  {
    hide Covered;
    assert Covers(q, from) by {
      CoversEach(q, lo, hi, from);
    }
    var g :| g in q && g <= from <= q[g].to;
    var next, end := q[from := Row(TileEnd(from, to, size), Pending, 0, 0)], TileEnd(from, to, size);
    SeedOnlyAdds(next, end + 1, to, size);
    assert Seeded(q, from, to, size) == Seeded(next, end + 1, to, size);
    assert g in next && from in next && next[g] == q[g];
  }

  lemma CoversEach(q: Table, lo: int, hi: int, b: int)
    requires Covered(q, lo, hi) && lo <= b <= hi
    ensures Covers(q, b)
  {
  }

  lemma {:induction false} MisalignedSeedDoesNot(q: Table, lo: int, hi: int, from: int, to: int, size: int, top: int)
    requires Tiled(q, lo, hi) && lo <= from && size >= 1 && hi <= top && to <= top
    requires !Aligned(q, hi, from, to, size)
    ensures !Tiled(Seeded(q, from, to, size), lo, top)
    decreases (to - from)
  {
    var end, s := TileEnd(from, to, size), Seeded(q, from, to, size);
    if from > hi {
      AlignedAbove(q, hi, from, to, size);
    } else if from !in q {
      NewChunkOverlaps(q, lo, hi, from, to, size, top);
    } else if end > hi {
      SeedOnlyAdds(q, end + 1, to, size);
      assert !Covers(s, hi + 1);
    } else {
      MisalignedSeedDoesNot(q, lo, hi, end + 1, to, size, top);
    }
  }

  /** The tile that reaches past the queued range starts where a chunk is already queued. */
  predicate TailClipped(q: Table, hi: int, from: int, to: int, size: int)
    decreases (to - from)
  {
    from <= to && from <= hi && size >= 1
    && if TileEnd(from, to, size) > hi then from in q
       else TailClipped(q, hi, TileEnd(from, to, size) + 1, to, size)
  }

  /**
   * Seeding from anywhere in the queued range, on the old grid or off it, leaves no block uncovered
   * if and only if the tile that reaches past the range is not taken for one already queued: that
   * chunk was clipped short by the end of an earlier backfill, and the rest of the tile is skipped.
   */
  lemma SeedCoversIff(q: Table, lo: int, hi: int, from: int, to: int, size: int)
    requires Covered(q, lo, hi) && lo <= from <= hi + 1 && size >= 1
    ensures Covered(Seeded(q, from, to, size), lo, Greatest(hi, to)) <==> !TailClipped(q, hi, from, to, size)
  {
    if TailClipped(q, hi, from, to, size) {
      ClippedTailUncovered(q, lo, hi, from, to, size);
    } else {
      SeedCovers(q, lo, hi, from, to, size);
    }
  }

  lemma {:induction false} SeedCovers(q: Table, lo: int, hi: int, from: int, to: int, size: int)
    requires Covered(q, lo, hi) && lo <= from <= hi + 1 && size >= 1 && !TailClipped(q, hi, from, to, size)
    ensures Covered(Seeded(q, from, to, size), lo, Greatest(hi, to))
    decreases (to - from)
  {
    if from <= to {
      var end := TileEnd(from, to, size);
      var next := if from in q then q else q[from := Row(end, Pending, 0, 0)];
      CoveredWith(q, lo, hi, from, Row(end, Pending, 0, 0));
      if end > hi {
        NotClippedAbove(next, end, end + 1, to, size);
      } else {
        StillNotClipped(q, from, Row(end, Pending, 0, 0), hi, end + 1, to, size);
      }
      SeedCovers(next, lo, Greatest(hi, end), end + 1, to, size);
    }
  }

  lemma CoveredWith(q: Table, lo: int, hi: int, from: int, row: Row)
    requires Covered(q, lo, hi) && lo <= from <= hi + 1 && from <= row.to
    ensures Covered(q[from := row], lo, Greatest(hi, row.to)) || from in q
  {
    if from !in q {
      var next := q[from := row];
      forall b | lo <= b <= Greatest(hi, row.to)
        ensures Covers(next, b)
      {
        if b <= hi {
          assert Covers(q, b);
          var f :| f in q && f <= b <= q[f].to;
          assert f in next && next[f] == q[f];
        } else {
          assert from in next;
        }
      }
    }
  }

  lemma NotClippedAbove(q: Table, hi: int, from: int, to: int, size: int)
    requires hi < from
    ensures !TailClipped(q, hi, from, to, size)
  {
  }

  lemma {:induction false} StillNotClipped(q: Table, f: int, row: Row, hi: int, from: int, to: int, size: int)
    requires f < from && !TailClipped(q, hi, from, to, size)
    ensures !TailClipped(q[f := row], hi, from, to, size)
    decreases (to - from)
  {
    if from <= to && from <= hi && size >= 1 && TileEnd(from, to, size) <= hi {
      StillNotClipped(q, f, row, hi, TileEnd(from, to, size) + 1, to, size);
    }
  }

  lemma {:induction false} ClippedTailUncovered(q: Table, lo: int, hi: int, from: int, to: int, size: int)
    requires (forall f <- q :: q[f].to <= hi) && lo <= from && TailClipped(q, hi, from, to, size)
    ensures !Covers(Seeded(q, from, to, size), hi + 1) && hi < to
    ensures forall top :: hi < top ==> !Covered(Seeded(q, from, to, size), lo, top)
    decreases (to - from)
  {
    var end, s := TileEnd(from, to, size), Seeded(q, from, to, size);
    if end > hi {
      SeedOnlyAdds(q, end + 1, to, size);
    } else {
      var next := if from in q then q else q[from := Row(end, Pending, 0, 0)];
      if from !in q {
        StillClipped(q, from, Row(end, Pending, 0, 0), hi, end + 1, to, size);
      }
      ClippedTailUncovered(next, lo, hi, end + 1, to, size);
    }
  }

  lemma {:induction false} StillClipped(q: Table, f: int, row: Row, hi: int, from: int, to: int, size: int)
    requires f < from && TailClipped(q, hi, from, to, size)
    ensures TailClipped(q[f := row], hi, from, to, size)
    decreases (to - from)
  {
    if TileEnd(from, to, size) <= hi {
      StillClipped(q, f, row, hi, TileEnd(from, to, size) + 1, to, size);
    }
  }

  /** The start of the tile block `b` falls in. */
  function TileStart(from: int, size: int, b: int): int
    requires size > 0
    decreases b - from
  {
    if b < from + size then from else TileStart(from + size, size, b)
  }

  /**
   * Whatever the queue holds, and wherever the tiles begin: a block is covered after seeding if and only
   * if it was before, or it lies in a tile that does not start at a queued chunk.
   */
  lemma {:induction false} SeedCoversBlockIff(q: Table, from: int, to: int, size: int, b: int)
    requires size >= 1
    ensures Covers(Seeded(q, from, to, size), b)
            <==> Covers(q, b) || (from <= b <= to && TileStart(from, size, b) !in q)
    decreases (to - from)
  {
    if from <= to {
      var end := TileEnd(from, to, size);
      var next := if from in q then q else q[from := Row(end, Pending, 0, 0)];
      SeedCoversBlockIff(next, end + 1, to, size, b);
      assert Covers(next, b) <==> Covers(q, b) || (from !in q && from <= b <= end) by {
        if from !in q {
          CoversWith(q, from, Row(end, Pending, 0, 0), b);
        }
      }
      if end < b <= to {
        TileStartsFrom(end + 1, size, b);
      }
    }
  }

  lemma CoversWith(q: Table, from: int, row: Row, b: int)
    requires from !in q
    ensures Covers(q[from := row], b) <==> Covers(q, b) || from <= b <= row.to
  {
    var next := q[from := row];
    if Covers(q, b) {
      var f :| f in q && f <= b <= q[f].to;
      assert f in next && next[f] == q[f];
    }
    if from <= b <= row.to {
      assert from in next;
    }
  }

  lemma {:induction false} TileStartsFrom(from: int, size: int, b: int)
    requires size >= 1
    ensures TileStart(from, size, b) >= from
    decreases b - from
  {
    if b >= from + size {
      TileStartsFrom(from + size, size, b);
    }
  }

  /** Some tile is not queued yet and ends under the ceiling. */
  predicate NewTileFits(q: Table, from: int, to: int, size: int, ceiling: Option<int>)
    decreases (to - from)
  {
    from <= to && size >= 1
    && ((from !in q && (ceiling == None || TileEnd(from, to, size) <= ceiling.value))
        || NewTileFits(q, TileEnd(from, to, size) + 1, to, size, ceiling))
  }

  /** That is what it takes for seeding to add a chunk that can be claimed. */
  lemma {:induction false} NewTileFitsIff(q: Table, from: int, to: int, size: int, ceiling: Option<int>)
    ensures NewTileFits(q, from, to, size, ceiling)
            <==> exists f <- Seeded(q, from, to, size) :: f !in q && Claimable(Seeded(q, from, to, size)[f], ceiling)
    decreases (to - from)
  {
    if from <= to && size >= 1 {
      var end, s := TileEnd(from, to, size), Seeded(q, from, to, size);
      var next := if from in q then q else q[from := Row(end, Pending, 0, 0)];
      assert s == Seeded(next, end + 1, to, size);
      NewTileFitsIff(next, end + 1, to, size, ceiling);
      SameNewTiles(q, from, Row(end, Pending, 0, 0), end + 1, to, size, ceiling);
      SeedOnlyAdds(next, end + 1, to, size);
      SeedOnlyAdds(q, from, to, size);
      assert from in s;
      if from !in q {
        assert s[from] == next[from];
      }
    }
  }

  lemma {:induction false} SameNewTiles(q: Table, f: int, row: Row, from: int, to: int, size: int, ceiling: Option<int>)
    requires f < from
    ensures NewTileFits(q[f := row], from, to, size, ceiling) <==> NewTileFits(q, from, to, size, ceiling)
    decreases (to - from)
  {
    if from <= to && size >= 1 {
      SameNewTiles(q, f, row, TileEnd(from, to, size) + 1, to, size, ceiling);
    }
  }

  /** Seeding the identical range again changes nothing. */
  lemma {:induction false} ReseedIsNoOp(q: Table, from: int, to: int, size: int)
    ensures Seeded(Seeded(q, from, to, size), from, to, size) == Seeded(q, from, to, size)
    decreases (to - from)
  {
    if from <= to && size >= 1 {
      var end := TileEnd(from, to, size);
      var next := if from in q then q else q[from := Row(end, Pending, 0, 0)];
      ReseedIsNoOp(next, end + 1, to, size);
      SeedOnlyAdds(next, end + 1, to, size);
    }
  }

  /** The inserts that got through, tile by tile, before the process died. */
  predicate WholeTiles(from: int, through: int, size: int)
    requires size >= 1
    decreases through - from
  {
    through == from - 1 || (from + size - 1 <= through && WholeTiles(from + size, through, size))
  }

  /** Seeding is one insert after another: cut short by a crash, it is completed by seeding again. */
  lemma {:induction false} SeedAgainCompletes(q: Table, from: int, through: int, to: int, size: int)
    requires size >= 1 && through <= to && WholeTiles(from, through, size)
    ensures Seeded(Seeded(q, from, through, size), from, to, size) == Seeded(q, from, to, size)
    decreases through - from
  {
    if through >= from {
      var end := TileEnd(from, to, size);
      var next := if from in q then q else q[from := Row(end, Pending, 0, 0)];
      assert TileEnd(from, through, size) == end == from + size - 1;
      SeedAgainCompletes(next, end + 1, through, to, size);
      SeedOnlyAdds(next, end + 1, through, size);
    }
  }

  /**
   * A restart that seeds a longer range over a queue whose last chunk was clipped short: the
   * clipped tile is skipped, and a done end beyond it claims blocks no chunk covers.
   */
  lemma ClippedChunkLeavesAHole()
    ensures var q := Seeded(map[], 0, 14, 10);
            var s := Seeded(q, 0, 29, 10);
            var done := map f | f in s :: s[f].(state := Done);
            Tiled(q, 0, 14) && TailClipped(q, 14, 0, 29, 10)
            && !Covers(s, 15) && IsDoneEnd(done, Some(29))
  {
    var row := (to: int) => Row(to, Pending, 0, 0);
    var q := Seeded(map[], 0, 14, 10);
    assert q == map[0 := row(9), 10 := row(14)] by {
      assert Seeded(map[0 := row(9), 10 := row(14)], 15, 14, 10) == map[0 := row(9), 10 := row(14)];
      assert Seeded(map[0 := row(9)], 10, 14, 10) == Seeded(map[0 := row(9), 10 := row(14)], 15, 14, 10);
    }
    var s := Seeded(q, 0, 29, 10);
    assert s == q[20 := row(29)] by {
      assert Seeded(q, 10, 29, 10) == Seeded(q, 20, 29, 10);
      assert Seeded(q, 20, 29, 10) == Seeded(q[20 := row(29)], 30, 29, 10);
    }
    forall b | 0 <= b <= 14
      ensures Covers(q, b)
    {
      assert 0 in q && 10 in q;
    }
    var done := map f | f in s :: s[f].(state := Done);
    assert 20 in done && InDonePrefix(done, 20);
    assert TailClipped(q, 14, 10, 29, 10);
  }
}
