/**
 * The number-keyed store over two tiers of segments: one open writer, one cached reader, a hot
 * root and an optional cold one.
 *
 * `Store` is what the two roots hold, `View` what a read of it answers. `Segments` is the object
 * with its open handles; each of its methods is proved against an operation on `Store`. A segment
 * file is taken as the log it names, which is what `SegmentWriter` and `SegmentReader` are proved
 * to make of its bytes; an open handle keeps naming its file after the file is unlinked.
 */
module Segstore {
  import opened LittleEndian
  import opened SegmentFormat
  import opened Layout
  import opened Wrappers

  datatype Key = Key(chain: string, index: nat)

  /** The records each tier's segment files name. */
  datatype Store = Store(hot: map<Key, Log>, cold: map<Key, Log>)

  function KeyOf(chain: string, number: nat, size: nat): Key
    requires size > 0
  {
    Key(chain, SegmentIndex(number, size))
  }

  /** Which tier answers for a segment: hot wins as a whole file. */
  function Locate(st: Store, k: Key): Option<Log> {
    if k in st.hot then Some(st.hot[k])
    else if k in st.cold then Some(st.cold[k])
    else None
  }

  function View(st: Store, k: Key, number: nat): Option<Bytes> {
    match Locate(st, k)
    case None => None
    case Some(log) => Lookup(log, number)
  }

  /** Opening a segment for append creates its hot file when there is none. */
  function OpenHot(st: Store, k: Key): Store {
    if k in st.hot then st else st.(hot := st.hot[k := []])
  }

  function PutRecord(st: Store, k: Key, r: Record): Store {
    var ready := OpenHot(st, k);
    ready.(hot := ready.hot[k := ready.hot[k] + [r]])
  }

  function CopySegment(st: Store, k: Key): Store
    requires k in st.hot
  {
    st.(cold := st.cold[k := st.hot[k]])
  }

  function DropSegment(st: Store, k: Key): Store {
    st.(hot := st.hot - {k})
  }

  datatype StoreError = NoColdTier | NotFound

  // ----- handles and files -----------------------------------------------------------------

  /** A segment's pair of files: the records they name, and how many of those were flushed. */
  datatype File = File(log: Log, durable: nat)

  type Tier = map<Key, File>

  /** A cached reader: the records its offset map covers, and which tier it was opened on. */
  datatype Reader = Reader(key: Key, hot: bool, seen: Log)

  ghost predicate Flushed(f: File) {
    f.durable == |f.log|
  }

  ghost function LogsOf(tier: Tier): map<Key, Log> {
    map k | k in tier :: tier[k].log
  }

  /** Everything not yet flushed belongs to the open writer's segment. */
  ghost predicate WriterOk(hot: Tier, cold: Tier, writer: Option<Key>) {
    && (writer.Some? ==> writer.value in hot && hot[writer.value].durable <= |hot[writer.value].log|)
    && (forall k <- hot :: Flushed(hot[k]) || writer == Some(k))
    && (forall k <- cold :: Flushed(cold[k]))
  }

  /** The cached reader is on the tier that answers, and has seen everything there. */
  ghost predicate ReaderOk(hot: Tier, cold: Tier, reader: Option<Reader>) {
    reader.Some? ==>
      var r := reader.value;
      && r.hot == (r.key in hot)
      && (if r.hot then r.seen == hot[r.key].log else r.key in cold && r.seen == cold[r.key].log)
  }

  class Segments {
    const size: nat
    const hasCold: bool
    var hot: Tier
    var cold: Tier
    /** The segment being appended to. */
    var writer: Option<Key>
    var reader: Option<Reader>

    ghost predicate Valid()
      reads this
    {
      && size > 0
      && (!hasCold ==> cold == map[])
      && WriterOk(hot, cold, writer)
      && ReaderOk(hot, cold, reader)
    }

    /** What the two roots hold. */
    ghost function Abs(): Store
      reads this
    {
      Store(LogsOf(hot), LogsOf(cold))
    }

    ghost predicate AllFlushed()
      reads this
    {
      (forall k <- hot :: Flushed(hot[k])) && (forall k <- cold :: Flushed(cold[k]))
    }

    constructor (size: nat, hasCold: bool)
      requires size > 0
      ensures Valid() && Abs() == Store(map[], map[])
      ensures this.size == size && this.hasCold == hasCold
    {
      this.size, this.hasCold := size, hasCold;
      hot, cold, writer, reader := map[], map[], None, None;
    }

    /** Flush the open writer; every other file was flushed when the writer left it. */
    method Sync()
      requires Valid()
      modifies `hot
      ensures Valid() && Abs() == old(Abs()) && AllFlushed()
    {
      if writer.Some? {
        var k := writer.value;
        hot := hot[k := hot[k].(durable := |hot[k].log|)];
      }
    }

    /** Make `k` the segment being appended to, sealing the one before it. */
    method OpenWriter(k: Key)
      requires Valid()
      modifies `hot, `writer
      ensures WriterOk(hot, cold, writer) && writer == Some(k)
      ensures hot.Keys == old(hot).Keys + {k}
      ensures forall f <- hot :: hot[f].log == if f in old(hot) then old(hot)[f].log else []
    {
      if writer != Some(k) {
        Sync();
        assert hot.Keys == LogsOf(hot).Keys == LogsOf(old(hot)).Keys == old(hot).Keys;
        assert forall f <- hot :: hot[f].log == LogsOf(hot)[f] == old(hot)[f].log;
        writer := Some(k);
        if k !in hot {
          hot := hot[k := File([], 0)];
        }
      }
    }

    /** Append one record to the hot tier, topping up or dropping the cached reader. */
    method Put(chain: string, number: nat, payload: Bytes)
      requires Valid()
      modifies this
      ensures Valid()
      ensures Abs() == PutRecord(old(Abs()), KeyOf(chain, number, size), Record(number, payload))
    {
      var k := KeyOf(chain, number, size);
      hide KeyOf;
      OpenWriter(k);
      hot := hot[k := hot[k].(log := hot[k].log + [Record(number, payload)])];
      assert Abs() == PutRecord(old(Abs()), KeyOf(chain, number, size), Record(number, payload));
      hide LogsOf, PutRecord;
      if reader.Some? && reader.value.key == k {
        if reader.value.hot {
          reader := Some(reader.value.(seen := hot[k].log));
        } else {
          reader := None;
        }
      }
    }

    /** Put a reader on segment `k` into the slot, unless it is on neither tier. */
    method OpenReader(k: Key) returns (found: bool)
      requires Valid()
      modifies `reader
      ensures Valid() && Abs() == old(Abs())
      ensures found <==> Locate(Abs(), k).Some?
      ensures found ==> reader.Some? && reader.value.key == k && Locate(Abs(), k) == Some(reader.value.seen)
    {
      if reader.Some? && reader.value.key == k {
        return true;
      }
      if k in hot {
        reader := Some(Reader(k, true, hot[k].log));
      } else if hasCold && k in cold {
        reader := Some(Reader(k, false, cold[k].log));
      } else {
        reader := None;
      }
      return reader.Some?;
    }

    /** Read one record back; `None` when it was never written. */
    method Get(chain: string, number: nat) returns (r: Option<Bytes>)
      requires Valid()
      modifies `reader
      ensures Valid() && Abs() == old(Abs())
      ensures r == View(Abs(), KeyOf(chain, number, size), number)
    {
      var found := OpenReader(KeyOf(chain, number, size));
      if !found {
        return None;
      }
      return Lookup(reader.value.seen, number);
    }

    method Has(chain: string, number: nat) returns (r: bool)
      requires Valid()
      modifies `reader
      ensures Valid() && Abs() == old(Abs())
      ensures r <==> View(Abs(), KeyOf(chain, number, size), number).Some?
    {
      var found := OpenReader(KeyOf(chain, number, size));
      if !found {
        return false;
      }
      return Lookup(reader.value.seen, number).Some?;
    }

    /** Copy one segment to the cold tier, leaving the hot copy in place. */
    method CopyToCold(chain: string, index: nat) returns (r: Result<nat, StoreError>)
      requires Valid()
      modifies `cold
      ensures Valid()
      ensures r.Err? ==> Abs() == old(Abs())
      ensures r.Ok? <==> hasCold && Key(chain, index) in hot
      ensures r.Ok? ==> Abs() == CopySegment(old(Abs()), Key(chain, index)) && r.value == |hot[Key(chain, index)].log|
    {
      var k := Key(chain, index);
      if !hasCold {
        return Err(NoColdTier);
      }
      if k !in hot {
        return Err(NotFound);
      }
      cold := cold[k := File(hot[k].log, |hot[k].log|)];
      return Ok(|hot[k].log|);
    }

    /** Delete one segment from the hot tier, dropping any handle on it first. */
    method DropHot(chain: string, index: nat)
      requires Valid()
      modifies this
      ensures Valid() && Abs() == DropSegment(old(Abs()), Key(chain, index))
    {
      var k := Key(chain, index);
      if writer == Some(k) {
        Sync();
        writer := None;
      }
      if reader.Some? && reader.value.key == k {
        reader := None;
      }
      hot := hot - {k};
    }

    /** Highest number such that every number from `from` up to it is present. */
    method ContiguousEnd(chain: string, from: nat) returns (last: Option<nat>)
      requires Valid()
      modifies `reader
      ensures Valid() && Abs() == old(Abs())
      ensures last.Some? <==> Present(Abs(), chain, size, from)
      ensures last.Some? ==>
                && from <= last.value
                && (forall n :: from <= n <= last.value ==> Present(Abs(), chain, size, n))
                && !Present(Abs(), chain, size, last.value + 1)
    {
      hide SegmentStart, SegmentEnd, SegmentIndex, Lookup;
      last := None;
      var number := from;
      ghost var missing := AbsentAbove(Abs(), chain, size, from);
      while true
        invariant Valid() && Abs() == old(Abs())
        invariant from <= number <= missing
        invariant last == if number == from then None else Some(number - 1)
        invariant forall n :: from <= n < number ==> Present(Abs(), chain, size, n)
        decreases missing - number
      {
        var index := SegmentIndex(number, size);
        var segmentEnd := SegmentEnd(index, size);
        InSegment(number, index, size);
        var found := OpenReader(Key(chain, index));
        if !found {
          return;
        }
        var next := number;
        var seen := reader.value.seen;
        while next <= segmentEnd && Lookup(seen, next).Some?
          modifies {}
          invariant number <= next <= segmentEnd + 1
          invariant next <= missing
          invariant forall n :: from <= n < next ==> Present(Abs(), chain, size, n)
        {
          InSegment(next, index, size);
          next := next + 1;
        }
        if next == number {
          InSegment(next, index, size);
          return;
        }
        last := Some(next - 1);
        number := next;
        if number <= segmentEnd {
          InSegment(next, index, size);
          return;
        }
      }
    }
  }

  ghost predicate Present(st: Store, chain: string, size: nat, number: nat)
    requires size > 0
  {
    View(st, KeyOf(chain, number, size), number).Some?
  }

  /** A store holds finitely many numbers, so some number at or above `from` is absent. */
  ghost function AbsentAbove(st: Store, chain: string, size: nat, from: nat): (n: nat)
    requires size > 0
    ensures n >= from && !Present(st, chain, size, n)
  {
    var keys := st.hot.Keys + st.cold.Keys;
    var top := MaxIndex(keys);
    StartInSegment(top + 1 + from, size);
    SegmentStart(top + 1 + from, size)
  }

  ghost function MaxIndex(keys: set<Key>): (top: nat)
    ensures forall k <- keys :: k.index <= top
  {
    if keys == {} then 0 else
    var k :| k in keys;
    var rest := MaxIndex(keys - {k});
    if k.index > rest then k.index else rest
  }
}
