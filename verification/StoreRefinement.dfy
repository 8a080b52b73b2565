/**
 * The two tiers behave as one map: what each operation does to what every read answers, exactly
 * when a put or a drop loses something, and the refinement over whole runs.
 */
module StoreRefinement {
  import opened LittleEndian
  import opened SegmentFormat
  import opened Layout
  import SegmentCrash
  import opened SegmentDamage
  import opened Segstore
  import opened Wrappers

  lemma LookupAppended(log: Log, r: Record, number: nat)
    ensures Lookup(log + [r], number) == if number == r.number then Some(r.payload) else Lookup(log, number)
  {
    assert Front(log + [r]) == log && Last(log + [r]) == r;
  }

  /** Writing to a segment that lives only on the cold tier hides what the cold copy holds. */
  predicate Shadows(st: Store, k: Key) {
    k !in st.hot && k in st.cold
  }

  /** What every read answers after a put. */
  lemma ViewAfterPut(st: Store, k: Key, r: Record, k': Key, number: nat)
    ensures View(PutRecord(st, k, r), k', number) ==
            if k' == k && number == r.number then Some(r.payload)
            else if k' == k && Shadows(st, k) then None
            else View(st, k', number)
  {
    LookupAppended(OpenHot(st, k).hot[k], r, number);
  }

  /**
   * A put changes no other number if and only if it does not land beside a cold-only copy that
   * holds another number.
   */
  lemma PutKeepsOthersIff(st: Store, k: Key, r: Record)
    ensures (forall k', number :: (k' != k || number != r.number) ==>
               View(PutRecord(st, k, r), k', number) == View(st, k', number))
            <==> (Shadows(st, k) ==> forall other <- st.cold[k] :: other.number == r.number)
  {
    forall k', number {
      ViewAfterPut(st, k, r, k', number);
    }
    if Shadows(st, k) {
      if other :| other in st.cold[k] && other.number != r.number {
        HoldsItsRecords(st.cold[k], other);
        assert View(st, k, other.number) != View(PutRecord(st, k, r), k, other.number);
      } else {
        forall number | number != r.number
          ensures Lookup(st.cold[k], number) == None
        {
          NothingElse(st.cold[k], r.number, number);
        }
      }
    }
  }

  lemma {:induction false} HoldsItsRecords(log: Log, r: Record)
    requires r in log
    ensures Lookup(log, r.number).Some?
  {
    if Last(log).number != r.number {
      HoldsItsRecords(Front(log), r);
    }
  }

  lemma {:induction false} NothingElse(log: Log, only: nat, number: nat)
    requires (forall r <- log :: r.number == only) && number != only
    ensures Lookup(log, number) == None
  {
    if log != [] {
      assert Last(log) in log;
      NothingElse(Front(log), only, number);
    }
  }

  function PutAll(st: Store, k: Key, records: Log): Store {
    if records == [] then st else PutRecord(PutAll(st, k, Front(records)), k, Last(records))
  }

  lemma {:induction false} PutAllHolds(st: Store, k: Key, records: Log)
    requires k !in st.hot && records != []
    ensures k in PutAll(st, k, records).hot && PutAll(st, k, records).hot[k] == records
    ensures PutAll(st, k, records).cold == st.cold
  {
    assert records == Front(records) + [Last(records)];
    if |records| > 1 {
      PutAllHolds(st, k, Front(records));
    }
  }

  /**
   * Writing to a cold-only segment and tiering it again replaces the cold copy: what the segment
   * held is still there if and only if all of it was written again.
   */
  lemma TieredAgainKeepsIff(st: Store, k: Key, records: Log)
    requires Shadows(st, k) && records != []
    ensures var written := PutAll(st, k, records);
            k in written.hot
            && var after := DropSegment(CopySegment(written, k), k);
               (forall number :: View(st, k, number).Some? ==> View(after, k, number).Some?)
               <==> forall other <- st.cold[k] :: Lookup(records, other.number).Some?
  {
    PutAllHolds(st, k, records);
    var after := DropSegment(CopySegment(PutAll(st, k, records), k), k);
    assert forall number :: View(after, k, number) == Lookup(records, number);
    if forall number :: View(st, k, number).Some? ==> View(after, k, number).Some? {
      forall other | other in st.cold[k]
        ensures Lookup(records, other.number).Some?
      {
        HoldsItsRecords(st.cold[k], other);
        assert View(st, k, other.number).Some?;
      }
    }
    forall number | View(st, k, number).Some?
      ensures exists other <- st.cold[k] :: other.number == number
    {
      HeldByARecord(st.cold[k], number);
    }
  }

  lemma {:induction false} HeldByARecord(log: Log, number: nat)
    requires Lookup(log, number).Some?
    ensures exists other <- log :: other.number == number
  {
    if Last(log).number == number {
      assert Last(log) in log;
    } else {
      HeldByARecord(Front(log), number);
      var other :| other in Front(log) && other.number == number;
      assert other in log;
    }
  }

  /** Copying answers nothing differently; dropping a copied segment answers nothing differently. */
  lemma CopyThenDrop(st: Store, k: Key, k': Key, number: nat)
    requires k in st.hot
    ensures View(CopySegment(st, k), k', number) == View(st, k', number)
    ensures View(DropSegment(CopySegment(st, k), k), k', number) == View(st, k', number)
  {
  }

  // ----- whole runs -------------------------------------------------------------------------

  datatype Op =
    | Put(chain: string, r: Record)
    | Copy(k: Key)
    | Drop(k: Key)

  function Target(op: Op, size: nat): Key
    requires size > 0
  {
    match op
    case Put(chain, r) => KeyOf(chain, r.number, size)
    case Copy(k) => k
    case Drop(k) => k
  }

  function Apply(st: Store, op: Op, size: nat): Store
    requires size > 0
  {
    var k := Target(op, size);
    match op
    case Put(_, r) => PutRecord(st, k, r)
    case Copy(_) => if k in st.hot then CopySegment(st, k) else st
    case Drop(_) => DropSegment(st, k)
  }

  function Run(ops: seq<Op>, size: nat): Store
    requires size > 0
  {
    if ops == [] then Store(map[], map[]) else Apply(Run(Front(ops), size), Last(ops), size)
  }

  /** Segments copied to the cold tier with no put since. */
  function Copied(ops: seq<Op>, size: nat): set<Key>
    requires size > 0
  {
    if ops == [] then {} else
    var before, k := Copied(Front(ops), size), Target(Last(ops), size);
    match Last(ops)
    case Put(_, _) => before - {k}
    case Copy(_) => if k in Run(Front(ops), size).hot then before + {k} else before
    case Drop(_) => before
  }

  function Dropped(ops: seq<Op>, size: nat): set<Key>
    requires size > 0
  {
    if ops == [] then {} else
    Dropped(Front(ops), size) + if Last(ops).Drop? then {Last(ops).k} else {}
  }

  /**
   * The order tiering keeps: a drop follows a copy with no put to that segment in between, and
   * nothing is put into a dropped segment.
   */
  predicate InOrder(ops: seq<Op>, size: nat)
    requires size > 0
  {
    ops == []
    || (&& InOrder(Front(ops), size)
        && (Last(ops).Drop? ==> Last(ops).k in Copied(Front(ops), size))
        && (Last(ops).Put? ==> Target(Last(ops), size) !in Dropped(Front(ops), size)))
  }

  /** The one map the store stands for: the last payload put. */
  function LastPut(ops: seq<Op>, chain: string, number: nat): Option<Bytes> {
    if ops == [] then None else
    match Last(ops)
    case Put(c, r) =>
      if c == chain && r.number == number then Some(r.payload) else LastPut(Front(ops), chain, number)
    case _ => LastPut(Front(ops), chain, number)
  }

  /** What a run in order keeps: copies are current, and only dropped segments are cold-only. */
  lemma {:induction false} TiersAgree(ops: seq<Op>, size: nat)
    requires size > 0 && InOrder(ops, size)
    ensures var st := Run(ops, size);
            && (forall k <- Copied(ops, size) :: k in st.cold && (k in st.hot ==> st.hot[k] == st.cold[k]))
            && (forall k <- st.cold :: k !in st.hot ==> k in Dropped(ops, size))
  {
    if ops != [] {
      TiersAgree(Front(ops), size);
    }
  }

  /** Over any run in order, every read answers with the last payload put, whichever tier has it. */
  lemma {:induction false} RefinesOneMap(ops: seq<Op>, size: nat, chain: string, number: nat)
    requires size > 0 && InOrder(ops, size)
    ensures View(Run(ops, size), KeyOf(chain, number, size), number) == LastPut(ops, chain, number)
  {
    if ops != [] {
      var before, op, k := Run(Front(ops), size), Last(ops), KeyOf(chain, number, size);
      RefinesOneMap(Front(ops), size, chain, number);
      TiersAgree(Front(ops), size);
      match op {
        case Put(c, r) =>
          ViewAfterPut(before, Target(op, size), r, k, number);
        case Copy(_) =>
        case Drop(d) =>
          assert View(before, k, number) == View(DropSegment(before, d), k, number);
      }
    }
  }

  // ----- from bytes to answers -----------------------------------------------------------------

  /** The segment files of a log, read through their index, answer what the store is taken to hold. */
  lemma FilesAnswer(st: Store, k: Key, number: nat)
    requires Locate(st, k).Some? && LogOk(Locate(st, k).value)
    ensures var log := Locate(st, k).value;
            match View(st, k, number)
            case None => number !in IndexOf(log)
            case Some(payload) =>
              && number in IndexOf(log) && IndexOf(log)[number].len >= FRAME_HEADER_LEN
              && ReadFrame(SegOf(log), number, IndexOf(log)[number]) == Ok(payload)
  {
    ReadsBack(SegOf(Locate(st, k).value), Locate(st, k).value, number);
  }

  // ----- a put between the two copies ------------------------------------------------------------

  /**
   * The segment file is copied first and the index second, with nothing to keep a put out. The cold copy
   * then answers a number as the hot one did when the copy began if and only if it was not put in
   * between; one that was is an error there, though the hot copy answers it until it is dropped.
   */
  lemma PutBetweenCopies(log: Log, more: Log, number: nat, k: nat)
    requires LogOk(log + more) && IsLast(log + more, number, k)
    ensures number in IndexOf(log + more) && IndexOf(log + more)[number].len >= FRAME_HEADER_LEN
    ensures var read := ReadFrame(SegOf(log), number, IndexOf(log + more)[number]);
            if k < |log| then Lookup(log, number).Some? && read == Ok(Lookup(log, number).value) else read == Err(Unreadable)
    ensures ReadFrame(SegOf(log + more), number, IndexOf(log + more)[number]) == Ok((log + more)[k].payload)
  {
    hide ReadFrame, IndexOf, Frames, Frame, Lookup, Holes;
    var all := log + more;
    LastReadsIff(SegOf(log), all, number, k);
    LastReadsIff(SegOf(all), all, number, k);
    WholeHasNone(all);
    if k < |log| {
      assert all[..k] == log[..k];
      assert forall j :: k < j < |log| ==> all[j] == log[j];
      LastIs(log, number, k);
      WholeHasNone(log);
      SameFrame(log, more, k);
    } else {
      assert all[..k][..|log|] == log;
      PrefixBytes(all[..k], |log|);
    }
  }

  lemma SameFrame(log: Log, more: Log, k: nat)
    requires k < |log|
    ensures k in Holes(SegOf(log), log + more) <==> k in Holes(SegOf(log), log)
  {
    hide Frames, Frame;
    assert (log + more)[..k] == log[..k];
  }

  // ----- what a power loss can take ------------------------------------------------------------

  /** How much of each file of a segment is left. */
  datatype Cut = Cut(seg: nat, idx: nat)

  /** The files lose their tails independently, but nothing that was flushed. */
  ghost predicate CanLose(f: File, c: Cut) {
    && f.durable <= |f.log|
    && End(f.log[..f.durable]) <= c.seg <= |SegOf(f.log)|
    && |IdxOf(f.log[..f.durable])| <= c.idx <= |IdxOf(f.log)|
  }

  /** How many records the index still names. */
  function Named(log: Log, c: Cut): nat
    requires c.idx <= |IdxOf(log)|
  {
    SegmentCrash.EntryCount(IdxOf(log)[..c.idx])
  }

  lemma NamedWithin(f: File, c: Cut)
    requires CanLose(f, c)
    ensures f.durable <= Named(f.log, c) <= |f.log|
  {
  }

  /**
   * A power loss only touches the open writer's segment, and nothing right after a sync. There, every
   * flushed entry still reads back, and so do all the index still names if and only if the segment
   * was not cut below them.
   */
  lemma OnlyTheWriterLoses(hot: Tier, cold: Tier, writer: Option<Key>, k: Key, c: Cut)
    requires WriterOk(hot, cold, writer) && k in hot && LogOk(hot[k].log) && CanLose(hot[k], c)
    ensures writer != Some(k) ==> Flushed(hot[k])
    ensures Flushed(hot[k]) ==>
              SegOf(hot[k].log)[..c.seg] == SegOf(hot[k].log) && IdxOf(hot[k].log)[..c.idx] == IdxOf(hot[k].log)
    ensures var log := hot[k].log;
            var named := Named(log, c);
            && hot[k].durable <= named <= |log|
            && SegmentCrash.AllEntriesRead(log, SegOf(log)[..c.seg], hot[k].durable)
            && (SegmentCrash.AllEntriesRead(log, SegOf(log)[..c.seg], named) <==> End(log[..named]) <= c.seg)
  {
    hide ReadFrame, Frame, Entries, Frames, IndexOf, SegmentCrash.AllEntriesRead;
    var log, durable := hot[k].log, hot[k].durable;
    if Flushed(hot[k]) {
      assert log[..durable] == log;
    }
    SegmentCrash.CutReadable(log, c.seg, durable);
    SegmentCrash.CutReadableIff(log, c.seg, c.idx);
  }

  /** What a reader of the cut files answers for a number: it goes by the last entry it finds. */
  function ReadAfter(log: Log, c: Cut, number: nat): Option<Result<Bytes, Corrupt>>
    requires c.seg <= |SegOf(log)| && c.idx <= |IdxOf(log)| && Named(log, c) <= |log|
  {
    var index := IndexOf(log[..Named(log, c)]);
    if number in index && index[number].len >= FRAME_HEADER_LEN
    then Some(ReadFrame(SegOf(log)[..c.seg], number, index[number])) else None
  }

  /**
   * After a power loss, a number that the index still names is answered if and only if the segment
   * was not cut below the frame of the last record named for it, flushed or not; otherwise it is an error.
   */
  lemma ReadAfterIs(f: File, c: Cut, number: nat, k: nat)
    requires LogOk(f.log) && CanLose(f, c) && Named(f.log, c) <= |f.log|
    requires IsLast(f.log[..Named(f.log, c)], number, k)
    ensures ReadAfter(f.log, c, number)
            == Some(if End(f.log[..k + 1]) <= c.seg then Ok(f.log[k].payload) else Err(Unreadable))
    ensures k < f.durable ==> End(f.log[..k + 1]) <= c.seg
  {
    hide ReadFrame, IndexOf, Frames, Frame, Entries, IsLast, Holes, Named;
    var log, n := f.log, Named(f.log, c);
    var seg := SegOf(log)[..c.seg];
    PrefixBytes(log, n);
    LastIsThere(f, c, number, k);
    assert log[..n][..k] == log[..k] && log[..n][k] == log[k];
    LastReadsIff(seg, log[..n], number, k);
    WholeHasNone(log);
    CutHoles(SegOf(log), log, c.seg, n);
    RecordStep(log, k);
  }

  lemma LastIsThere(f: File, c: Cut, number: nat, k: nat)
    requires CanLose(f, c) && Named(f.log, c) <= |f.log| && IsLast(f.log[..Named(f.log, c)], number, k)
    ensures k < Named(f.log, c) && f.log[k].number == number && c.seg <= |SegOf(f.log)|
    ensures k < f.durable ==> End(f.log[..k + 1]) <= c.seg
  {
    hide Frames, Entries, Named;
    if k < f.durable {
      PrefixBytes(f.log[..f.durable], k + 1);
      assert f.log[..f.durable][..k + 1] == f.log[..k + 1];
    }
  }

  /** Nothing of this number was put since the flush. */
  predicate NotPutSince(f: File, number: nat) {
    forall j :: f.durable <= j < |f.log| ==> f.log[j].number != number
  }

  /**
   * A flushed number is answered after whatever power loss if and only if it was not put again since
   * the flush, and then with what was flushed: a newer entry can outlive its frame, and hides the
   * flushed one.
   */
  lemma FlushedSurvivesIff(f: File, number: nat)
    requires LogOk(f.log) && f.durable <= |f.log| && Lookup(f.log[..f.durable], number).Some?
    ensures NotPutSince(f, number) ==>
              forall c :: CanLose(f, c) ==>
                Named(f.log, c) <= |f.log| && ReadAfter(f.log, c, number) == Some(Ok(Lookup(f.log[..f.durable], number).value))
    ensures !NotPutSince(f, number) ==>
              exists c :: CanLose(f, c) && Named(f.log, c) <= |f.log| && ReadAfter(f.log, c, number) == Some(Err(Unreadable))
  {
    hide ReadAfter, Frames, Entries, Named;
    var log := f.log;
    var k := LastExists(log[..f.durable], number);
    LastIs(log[..f.durable], number, k);
    if NotPutSince(f, number) {
      forall c | CanLose(f, c)
        ensures Named(log, c) <= |log| && ReadAfter(log, c, number) == Some(Ok(log[k].payload))
      {
        NamedWithin(f, c);
        ReadAfterIs(f, c, number, k);
      }
    } else {
      LoseNewFrames(f, number);
    }
  }

  /** The newer entries reach the disk, and none of their frames. */
  lemma LoseNewFrames(f: File, number: nat)
    requires LogOk(f.log) && f.durable <= |f.log| && !NotPutSince(f, number)
    ensures exists c :: CanLose(f, c) && Named(f.log, c) <= |f.log| && ReadAfter(f.log, c, number) == Some(Err(Unreadable))
  {
    hide ReadAfter, Frames, Entries, SegmentCrash.EntryCount, IndexOf, Lookup;
    var log := f.log;
    var c := Cut(End(log[..f.durable]), |IdxOf(log)|);
    PrefixBytes(log, f.durable);
    WholeIndexNames(log);
    var k := LastPutSince(f, number);
    PrefixBytes(log[..k + 1], f.durable);
    PrefixBytes(log[..k], f.durable);
    assert log[..k][..f.durable] == log[..f.durable] && log[..|log|] == log;
    RecordStep(log, k);
    ReadAfterIs(f, c, number, k);
  }

  lemma WholeIndexNames(log: Log)
    ensures SegmentCrash.EntryCount(IdxOf(log)) == |log| && IdxOf(log)[..|IdxOf(log)|] == IdxOf(log)
  {
  }

  lemma LastPutSince(f: File, number: nat) returns (k: nat)
    requires f.durable <= |f.log| && !NotPutSince(f, number)
    ensures f.durable <= k && IsLast(f.log, number, k)
  {
    k := |f.log| - 1;
    while f.log[k].number != number
      invariant f.durable <= k < |f.log|
      invariant forall j :: k < j < |f.log| ==> f.log[j].number != number
      decreases k
    {
      k := k - 1;
    }
  }
}
