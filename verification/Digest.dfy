/**
 * The digest stage: archived blocks become rows, a batch to a transaction. What a run commits is
 * stated against digesting one block to a transaction.
 */
module Digest {
  import opened Extrema
  import opened Queue
  import opened Wrappers

  type Hash = nat

  /** A decoded block, as far as the digest looks into it. */
  datatype Block = Block(hash: Hash, parent: Hash, spec: nat)

  /** The tables one transaction writes; `tables` is whatever the handlers keep. */
  datatype Db<H> = Db(
    blocks: map<nat, Block>, runtimes: map<nat, nat>, cursor: Option<(nat, Hash)>, digest: int, tables: H)

  datatype Failure =
    /** The block is not archived, or does not decode. */
    | Unreadable(number: nat)
    | LinkageBroken(number: nat)
    | HandlerFailed(number: nat)

  /** What the digest reads from: the archive, and the handlers' effect on their own tables. */
  datatype Env<!H> = Env(archive: nat -> Option<Block>, handler: (H, nat, Block) -> Option<H>)

  // ----- one block to a transaction --------------------------------------------------------------

  /** An insert that does nothing on conflict. */
  function InsertNew<V>(rows: map<nat, V>, key: nat, value: V): map<nat, V> {
    if key in rows then rows else rows[key := value]
  }

  function ReadOne<H>(env: Env<H>, n: nat, link: Option<Hash>): Result<Block, Failure> {
    match env.archive(n)
    case None => Err(Unreadable(n))
    case Some(b) => if link.Some? && link.value != b.parent then Err(LinkageBroken(n)) else Ok(b)
  }

  function DigestOne<H>(env: Env<H>, db: Db<H>, n: nat, link: Option<Hash>): Result<Db<H>, Failure> {
    match ReadOne(env, n, link)
    case Err(e) => Err(e)
    case Ok(b) =>
      match env.handler(db.tables, n, b)
      case None => Err(HandlerFailed(n))
      case Some(tables) =>
        Ok(Db(InsertNew(db.blocks, n, b), InsertNew(db.runtimes, b.spec, n), Some((n, b.hash)),
              Greatest(db.digest, n), tables))
  }

  /** Digest `from..next` one block at a time, each checked against the hash of the one before. */
  function Digested<H>(env: Env<H>, db: Db<H>, from: nat, next: nat, link: Option<Hash>)
    : Result<(Db<H>, Option<Hash>), Failure>
    decreases next - from
  {
    if from >= next then Ok((db, link)) else
    match DigestOne(env, db, from, link)
    case Err(e) => Err(e)
    case Ok(d) => Digested(env, d, from + 1, next, Some(d.cursor.value.1))
  }

  // ----- a batch, phase by phase -----------------------------------------------------------------

  /** The blocks of a batch, each linking to the one before it. */
  function ReadAll<H>(env: Env<H>, from: nat, next: nat, link: Option<Hash>): (r: Result<seq<Block>, Failure>)
    ensures r.Ok? && from <= next ==> |r.value| == next - from
    decreases next - from
  {
    if from >= next then Ok([]) else
    match ReadOne(env, from, link)
    case Err(e) => Err(e)
    case Ok(b) =>
      match ReadAll(env, from + 1, next, Some(b.hash))
      case Err(e) => Err(e)
      case Ok(rest) => Ok([b] + rest)
  }

  function WithBlocks(rows: map<nat, Block>, from: nat, batch: seq<Block>): map<nat, Block>
    decreases |batch|
  {
    if batch == [] then rows else WithBlocks(InsertNew(rows, from, batch[0]), from + 1, batch[1..])
  }

  function WithRuntimes(rows: map<nat, nat>, from: nat, batch: seq<Block>): map<nat, nat>
    decreases |batch|
  {
    if batch == [] then rows else WithRuntimes(InsertNew(rows, batch[0].spec, from), from + 1, batch[1..])
  }

  function Handled<H>(env: Env<H>, tables: H, from: nat, batch: seq<Block>): Result<H, Failure>
    decreases |batch|
  {
    if batch == [] then Ok(tables) else
    match env.handler(tables, from, batch[0])
    case None => Err(HandlerFailed(from))
    case Some(t) => Handled(env, t, from + 1, batch[1..])
  }

  /**
   * One transaction over a batch does what one transaction per block does: it succeeds exactly
   * when they all would, and leaves the same rows.
   */
  lemma {:induction false} BatchIsOneByOne<H>(env: Env<H>, db: Db<H>, from: nat, next: nat, link: Option<Hash>)
    requires from < next
    ensures var read, one := ReadAll(env, from, next, link), Digested(env, db, from, next, link);
            (one.Ok? <==> read.Ok? && Handled(env, db.tables, from, read.value).Ok?)
            && (one.Ok? ==>
                  var batch := read.value;
                  var last := batch[|batch| - 1];
                  one.value.1 == Some(last.hash)
                  && one.value.0 == Db(WithBlocks(db.blocks, from, batch), WithRuntimes(db.runtimes, from, batch),
                                       Some((next - 1, last.hash)), Greatest(db.digest, next - 1),
                                       Handled(env, db.tables, from, batch).value))
    decreases next - from
  {
    hide ReadOne;
    var one := DigestOne(env, db, from, link);
    var read := ReadOne(env, from, link);
    if read.Ok? && next > from + 1 {
      var rest := ReadAll(env, from + 1, next, Some(read.value.hash));
      if one.Ok? {
        BatchIsOneByOne(env, one.value, from + 1, next, Some(read.value.hash));
      }
      assert rest.Ok? ==> ([read.value] + rest.value)[1..] == rest.value;
    } else if read.Ok? {
      assert ReadAll(env, next, next, Some(read.value.hash)) == Ok([]);
      assert ([read.value] + [])[1..] == [];
    }
  }

  lemma DigestedNothing<H>(env: Env<H>, db: Db<H>, from: nat)
    ensures Digested(env, db, from, from, None) == Ok((db, None))
  {
  }

  /** Digesting two adjoining ranges, the hash carried over, is digesting their union. */
  lemma {:induction false} DigestedInTwo<H>(env: Env<H>, db: Db<H>, from: nat, mid: nat, next: nat, link: Option<Hash>)
    requires from <= mid <= next
    ensures var first := Digested(env, db, from, mid, link);
            Digested(env, db, from, next, link)
            == if first.Ok? then Digested(env, first.value.0, mid, next, first.value.1) else first
    decreases mid - from
  {
    if from < mid {
      var one := DigestOne(env, db, from, link);
      if one.Ok? {
        DigestedInTwo(env, one.value, from + 1, mid, next, Some(one.value.cursor.value.1));
      }
    }
  }

  // ----- the stage -------------------------------------------------------------------------------

  datatype Outcome =
    | Finished
    /** Caught up with the last fetch watermark seen; `next` is to be digested next. */
    | Waiting(next: nat)
    | Stopped(error: Failure)

  /** The last block a run may commit once it has seen this fetch watermark. */
  function LastOf(ready: int, stop: Option<nat>): int {
    if stop.Some? then Least(ready, stop.value) else ready
  }

  /** `next` is one past the last block this watermark allows, or the stop if that comes first. */
  predicate EndsAt(ready: int, stop: Option<nat>, next: nat) {
    if stop.Some? && stop.value < ready then next == stop.value + 1 else next == ready + 1
  }

  /** `db` is what digesting `start..next` block by block leaves. */
  ghost predicate Reached<H>(env: Env<H>, was: Db<H>, start: nat, next: nat, db: Db<H>) {
    var one := Digested(env, was, start, next, None);
    one.Ok? && one.value.0 == db
  }

  /** The batch that starts at `next` fails with this error, after everything before it was committed. */
  ghost predicate FailsAt<H>(env: Env<H>, was: Db<H>, start: nat, next: nat, end: nat, e: Failure, db: Db<H>) {
    && start <= next <= end
    && Reached(env, was, start, next, db)
    && Digested(env, was, start, end + 1, None).Err?
    && FailsWith(env, db, next, end, Digested(env, was, start, next, None).value.1, e)
  }

  /** What a batch fails with: a block that cannot be read or does not link, or else a handler. */
  ghost predicate FailsWith<H>(env: Env<H>, db: Db<H>, from: nat, to: nat, link: Option<Hash>, e: Failure) {
    match ReadAll(env, from, to + 1, link)
    case Err(unread) => e == unread
    case Ok(blocks) => Handled(env, db.tables, from, blocks) == Err(e)
  }

  class Stage<H> {
    const env: Env<H>
    const batch: nat
    var db: Db<H>

    constructor (env: Env<H>, batch: nat, db: Db<H>)
      ensures this.env == env && this.batch == batch && this.db == db
    {
      this.env, this.batch, this.db := env, batch, db;
    }

    function BatchSize(): nat {
      Greatest(batch, 1)
    }

    /** At most as many blocks as are configured, and one if none is. */
    predicate IsBatch(next: nat, end: nat) {
      next <= end && (end - next < batch || end == next)
    }

    predicate IsWhole(next: nat, end: nat) {
      end - next + 1 == batch || (batch == 0 && end == next)
    }

    /** Insert the batch's runtimes, each with its first sighting in the batch. */
    method InsertRuntimes(rows: map<nat, nat>, from: nat, blocks: seq<Block>) returns (r: map<nat, nat>)
      ensures r == WithRuntimes(rows, from, blocks)
    {
      var seen: set<nat>, sightings: seq<(nat, nat)> := {}, [];
      for i := 0 to |blocks|
        invariant forall s :: s in seen <==> exists j :: 0 <= j < i && blocks[j].spec == s
        invariant WithSightings(rows, sightings) == WithRuntimes(rows, from, blocks[..i])
        invariant forall s <- seen :: s in WithRuntimes(rows, from, blocks[..i])
      {
        WithRuntimesSnoc(rows, from, blocks[..i], blocks[i]);
        assert blocks[..i] + [blocks[i]] == blocks[..i + 1];
        if blocks[i].spec !in seen {
          seen := seen + {blocks[i].spec};
          WithSightingsSnoc(rows, sightings, (blocks[i].spec, from + i));
          sightings := sightings + [(blocks[i].spec, from + i)];
        }
      }
      assert blocks[..|blocks|] == blocks;
      r := WithSightings(rows, sightings);
    }

    /** Decode `from..=to` out of the archive, checking that each block links to the one before. */
    method Decode(from: nat, to: nat, previous: Option<Hash>) returns (r: Result<seq<Block>, Failure>)
      requires from <= to
      ensures r == ReadAll(env, from, to + 1, previous)
    {
      var blocks: seq<Block>, link := [], previous;
      assert forall rest: seq<Block> :: blocks + rest == rest;
      for number := from to to + 1
        invariant ReadAll(env, from, to + 1, previous)
                  == match ReadAll(env, number, to + 1, link)
                     case Ok(rest) => Ok(blocks + rest)
                     case Err(e) => Err(e)
      {
        match env.archive(number) {
          case None => return Err(Unreadable(number));
          case Some(b) =>
            if link.Some? && link.value != b.parent {
              return Err(LinkageBroken(number));
            }
            assert forall rest :: blocks + ([b] + rest) == blocks + [b] + rest;
            link := Some(b.hash);
            blocks := blocks + [b];
        }
      }
      assert blocks + [] == blocks;
      return Ok(blocks);
    }

    /** Run the handlers over the batch, block by block. */
    method RunHandlers(was: H, from: nat, blocks: seq<Block>) returns (r: Result<H, Failure>)
      ensures r == Handled(env, was, from, blocks)
    {
      var tables := was;
      for i := 0 to |blocks|
        invariant Handled(env, was, from, blocks) == Handled(env, tables, from + i, blocks[i..])
      {
        match env.handler(tables, from + i, blocks[i]) {
          case None => return Err(HandlerFailed(from + i));
          case Some(t) =>
            assert blocks[i..][1..] == blocks[i + 1..];
            tables := t;
        }
      }
      return Ok(tables);
    }

    /** Decode, check and commit `from..=to` as one transaction. */
    method Commit(from: nat, to: nat, previous: Option<Hash>) returns (r: Result<Hash, Failure>)
      requires from <= to
      modifies `db
      ensures var one := Digested(env, old(db), from, to + 1, previous);
              match r
              case Ok(hash) => one == Ok((db, Some(hash)))
              case Err(e) =>
                one.Err? && db == old(db) && FailsWith(env, db, from, to, previous, e)
    {
      hide Digested, Handled, WithBlocks, WithRuntimes, Greatest;
      BatchIsOneByOne(env, db, from, to + 1, previous);
      var decoded := Decode(from, to, previous);
      if decoded.Err? {
        return Err(decoded.error);
      }
      var blocks := decoded.value;
      var rows := WithBlocks(db.blocks, from, blocks);
      var runtimes := InsertRuntimes(db.runtimes, from, blocks);
      var handled := RunHandlers(db.tables, from, blocks);
      if handled.Err? {
        return Err(handled.error);
      }
      var last := blocks[|blocks| - 1];
      db := Db(rows, runtimes, Some((to, last.hash)), Greatest(db.digest, to), handled.value);
      return Ok(last.hash);
    }

    /** Digest from `start` until `stop`, seeing the fetch watermark take the values in `observed`. */
    method Run(start: nat, stop: Option<nat>, observed: seq<int>) returns (r: Outcome)
      modifies `db
      ensures match r
              case Finished =>
                stop.Some?
                && if start > stop.value then db == old(db)
                   else Reached(env, old(db), start, stop.value + 1, db) && exists ready <- observed :: stop.value <= ready
              case Waiting(next) =>
                && Reached(env, old(db), start, next, db)
                // Everything advertised and asked for has been digested, and nothing else.
                && (forall ready <- observed :: next > ready || (stop.Some? && next > stop.value))
                && (next == start || exists ready <- observed :: EndsAt(ready, stop, next))
              case Stopped(e) =>
                exists next: nat, end: nat ::
                  FailsAt(env, old(db), start, next, end, e, db) && IsBatch(next, end)
                  && exists ready <- observed ::
                       end <= ready && (stop.Some? ==> end <= stop.value)
                       && (!IsWhole(next, end) ==> EndsAt(ready, stop, end + 1))
      // A stop that some watermark seen has reached does not leave it waiting.
      ensures stop.Some? && start <= stop.value && (exists ready <- observed :: stop.value <= ready) ==> !r.Waiting?
    {
      hide Digested;
      var next, link := start, None;
      DigestedNothing(env, db, start);
      for i := 0 to |observed|
        invariant start <= next && (next == start || exists ready <- observed[..i] :: EndsAt(ready, stop, next))
        invariant forall ready <- observed[..i] :: next > ready || (stop.Some? && next > stop.value)
        invariant stop.Some? && start <= stop.value ==> forall ready <- observed[..i] :: ready < stop.value
        invariant stop.Some? && start <= stop.value ==> next <= stop.value
        invariant Digested(env, old(db), start, next, None) == Ok((db, link))
      {
        if stop.Some? && next > stop.value {
          return Finished;
        }
        var last := LastOf(observed[i], stop);
        assert observed[..i + 1] == observed[..i] + [observed[i]];
        ghost var before := next;
        while next <= last
          invariant before <= next <= Greatest(before, last + 1)
          invariant next == before || next <= last + 1
          invariant stop.Some? && start <= stop.value ==> next <= stop.value
          invariant Digested(env, old(db), start, next, None) == Ok((db, link))
          decreases last - next
        {
          var end := Least(next + BatchSize() - 1, last);
          DigestedInTwo(env, old(db), start, next, end + 1, None);
          var committed := Commit(next, end, link);
          if committed.Err? {
            assert FailsAt(env, old(db), start, next, end, committed.error, db);
            assert observed[i] in observed;
            return Stopped(committed.error);
          }
          link := Some(committed.value);
          next := end + 1;
          if stop.Some? && end >= stop.value {
            assert observed[i] in observed;
            return Finished;
          }
        }
        if next != before {
          assert EndsAt(observed[i], stop, next);
        }
      }
      assert observed[..|observed|] == observed;
      return Waiting(next);
    }

    /** Digest exactly `from..=to`. */
    method ReplayRange(from: nat, to: nat) returns (r: Result<(), Failure>)
      modifies `db
      ensures match r
              case Ok(_) => if from > to then db == old(db)
                            else Reached(env, old(db), from, to + 1, db)
              case Err(e) => exists next: nat, end: nat ::
                               FailsAt(env, old(db), from, next, end, e, db) && IsBatch(next, end) && end <= to
                               && (!IsWhole(next, end) ==> end == to)
    {
      hide Digested;
      var next, link := from, None;
      DigestedNothing(env, db, from);
      while next <= to
        invariant from <= next && (next <= to + 1 || next == from)
        invariant Digested(env, old(db), from, next, None) == Ok((db, link))
        decreases (to - next)
      {
        var end := Least(next + BatchSize() - 1, to);
        DigestedInTwo(env, old(db), from, next, end + 1, None);
        var committed := Commit(next, end, link);
        if committed.Err? {
          assert FailsAt(env, old(db), from, next, end, committed.error, db);
          return Err(committed.error);
        }
        link := Some(committed.value);
        next := end + 1;
      }
      return Ok(());
    }
  }

  /** The deduplicated rows of a batch, inserted where there is none. */
  function WithSightings(rows: map<nat, nat>, sightings: seq<(nat, nat)>): map<nat, nat>
    decreases |sightings|
  {
    if sightings == [] then rows
    else WithSightings(InsertNew(rows, sightings[0].0, sightings[0].1), sightings[1..])
  }

  lemma {:induction false} WithSightingsSnoc(rows: map<nat, nat>, sightings: seq<(nat, nat)>, s: (nat, nat))
    ensures WithSightings(rows, sightings + [s]) == InsertNew(WithSightings(rows, sightings), s.0, s.1)
    decreases |sightings|
  {
    if sightings == [] {
      assert ([s])[1..] == [];
      assert [] + [s] == [s];
    } else {
      WithSightingsSnoc(InsertNew(rows, sightings[0].0, sightings[0].1), sightings[1..], s);
      assert (sightings + [s])[1..] == sightings[1..] + [s];
    }
  }

  lemma {:induction false} WithRuntimesSnoc(rows: map<nat, nat>, from: nat, batch: seq<Block>, b: Block)
    ensures WithRuntimes(rows, from, batch + [b])
            == InsertNew(WithRuntimes(rows, from, batch), b.spec, from + |batch|)
    decreases |batch|
  {
    if batch == [] {
      assert ([b])[1..] == [];
      assert [] + [b] == [b];
    } else {
      WithRuntimesSnoc(InsertNew(rows, batch[0].spec, from), from + 1, batch[1..], b);
      assert (batch + [b])[1..] == batch[1..] + [b];
    }
  }

  // ----- what the rows are -------------------------------------------------------------------------

  /** Every block of the range is there and links to the one before it. */
  ghost predicate IsChain<H>(env: Env<H>, from: nat, next: nat, link: Option<Hash>) {
    && (forall n: nat :: from <= n < next ==> env.archive(n).Some?)
    && (forall n: nat :: from <= n < next - 1 ==> LinksTo(env, n))
    && (link.Some? && from < next ==> env.archive(from).value.parent == link.value)
  }

  /** The block after `n` names `n`'s hash as its parent. */
  ghost predicate LinksTo<H>(env: Env<H>, n: nat) {
    env.archive(n).Some? && env.archive(n + 1).Some? && env.archive(n + 1).value.parent == env.archive(n).value.hash
  }

  /** Checking a batch at a time, hash in hand, is checking the whole range as one chain. */
  lemma {:induction false} ReadsIffChain<H>(env: Env<H>, from: nat, next: nat, link: Option<Hash>)
    ensures ReadAll(env, from, next, link).Ok? <==> IsChain(env, from, next, link)
    decreases next - from
  {
    if from < next && ReadOne(env, from, link).Ok? {
      ReadsIffChain(env, from + 1, next, Some(env.archive(from).value.hash));
      if IsChain(env, from, next, link) && from + 1 < next {
        assert LinksTo(env, from);
      }
    }
  }

  /**
   * The hash is carried within a run only: two runs that meet at `mid` accept between them what
   * one run would if and only if the block at `mid` links to the one before it.
   */
  lemma RestartChecksIff<H>(env: Env<H>, from: nat, mid: nat, next: nat)
    requires from < mid < next
    requires ReadAll(env, from, mid, None).Ok? && ReadAll(env, mid, next, None).Ok?
    ensures ReadAll(env, from, next, None).Ok? <==> LinksTo(env, mid - 1)
  {
    ReadsIffChain(env, from, mid, None);
    ReadsIffChain(env, mid, next, None);
    ReadsIffChain(env, from, next, None);
  }

  lemma {:induction false} ReadsInOrder<H>(env: Env<H>, from: nat, next: nat, link: Option<Hash>)
    requires ReadAll(env, from, next, link).Ok? && from <= next
    ensures var batch := ReadAll(env, from, next, link).value;
            forall n: nat :: from <= n < next ==> env.archive(n) == Some(batch[n - from])
    decreases next - from
  {
    if from < next {
      ReadsInOrder(env, from + 1, next, Some(env.archive(from).value.hash));
    }
  }

  lemma {:induction false} BlockRows(rows: map<nat, Block>, from: nat, batch: seq<Block>)
    ensures var r := WithBlocks(rows, from, batch);
            && (forall n: nat :: n in r <==> n in rows || from <= n < from + |batch|)
            && (forall n <- r :: r[n] == if n in rows then rows[n] else batch[n - from])
    decreases |batch|
  {
    if batch != [] {
      BlockRows(InsertNew(rows, from, batch[0]), from + 1, batch[1..]);
    }
  }

  /** `n` is the first of a batch that starts at `from` to run under `spec`. */
  ghost predicate FirstSeenAt(batch: seq<Block>, from: nat, spec: nat, n: nat) {
    && from <= n < from + |batch| && batch[n - from].spec == spec
    && forall i :: 0 <= i < n - from ==> batch[i].spec != spec
  }

  ghost predicate RuntimesAre(was: map<nat, nat>, from: nat, batch: seq<Block>, rows: map<nat, nat>) {
    && (forall s <- was :: s in rows && rows[s] == was[s])
    && (forall s <- rows :: s in was || FirstSeenAt(batch, from, s, rows[s]))
    && (forall i :: 0 <= i < |batch| ==> batch[i].spec in rows)
  }

  lemma {:induction false} RuntimeRows(rows: map<nat, nat>, from: nat, batch: seq<Block>)
    ensures RuntimesAre(rows, from, batch, WithRuntimes(rows, from, batch))
    decreases |batch|
  {
    if batch != [] {
      var next, r := InsertNew(rows, batch[0].spec, from), WithRuntimes(rows, from, batch);
      RuntimeRows(next, from + 1, batch[1..]);
      forall s | s in r && s !in rows
        ensures FirstSeenAt(batch, from, s, r[s])
      {
        assert s !in next ==> FirstSeenAt(batch[1..], from + 1, s, r[s]);
      }
      forall i | 0 <= i < |batch|
        ensures batch[i].spec in r
      {
        assert i > 0 ==> batch[1..][i - 1].spec in r;
      }
    }
  }

  /**
   * What a digested range leaves, said without running it: a row for each of its blocks and no
   * other, each new runtime at its first sighting, and the marks at the end of the range.
   */
  ghost predicate RowsAre<H>(was: Db<H>, from: nat, batch: seq<Block>, db: Db<H>)
    requires batch != []
  {
    && (forall n: nat :: n in db.blocks <==> n in was.blocks || from <= n < from + |batch|)
    && (forall n <- db.blocks :: db.blocks[n] == if n in was.blocks then was.blocks[n] else batch[n - from])
    && RuntimesAre(was.runtimes, from, batch, db.runtimes)
    && db.cursor == Some((from + |batch| - 1, batch[|batch| - 1].hash))
    && db.digest == Greatest(was.digest, from + |batch| - 1)
  }

  /** The handlers' tables before each block of a batch, and after the last: each made from the one before. */
  ghost predicate HandlersMake<H>(env: Env<H>, from: nat, batch: seq<Block>, ts: seq<H>) {
    |ts| == |batch| + 1 && forall i :: 0 <= i < |batch| ==> env.handler(ts[i], from + i, batch[i]) == Some(ts[i + 1])
  }

  /** The handlers run one block after the other, each over what the last one wrote, up to one that refuses. */
  lemma {:induction false} HandledIs<H>(env: Env<H>, tables: H, from: nat, batch: seq<Block>) returns (ts: seq<H>)
    ensures ts != [] && ts[0] == tables && |ts| <= |batch| + 1 && HandlersMake(env, from, batch[..|ts| - 1], ts)
    ensures match Handled(env, tables, from, batch)
            case Ok(t) => |ts| == |batch| + 1 && t == ts[|batch|]
            case Err(e) =>
              |ts| <= |batch| && env.handler(ts[|ts| - 1], from + |ts| - 1, batch[|ts| - 1]) == None
              && e == HandlerFailed(from + |ts| - 1)
    decreases |batch|
  {
    if batch == [] || env.handler(tables, from, batch[0]).None? {
      return [tables];
    }
    var t := env.handler(tables, from, batch[0]).value;
    var rest := HandledIs(env, t, from + 1, batch[1..]);
    ts := [tables] + rest;
    forall i | 0 <= i < |ts| - 1
      ensures env.handler(ts[i], from + i, batch[..|ts| - 1][i]) == Some(ts[i + 1])
    {
      assert i > 0 ==> batch[1..][..|rest| - 1][i - 1] == batch[i];
    }
  }

  /** A range that cannot be read stops at its first block that is missing or does not link, by name. */
  lemma {:induction false} UnreadIs<H>(env: Env<H>, from: nat, next: nat, link: Option<Hash>) returns (n: nat)
    requires ReadAll(env, from, next, link).Err?
    ensures from <= n < next && IsChain(env, from, n, link)
    ensures ReadAll(env, from, next, link)
            == Err(if env.archive(n).None? then Unreadable(n) else LinkageBroken(n))
    ensures env.archive(n).Some? ==>
              if n == from then link.Some? && link.value != env.archive(n).value.parent else !LinksTo(env, n - 1)
    decreases next - from
  {
    n := from;
    if ReadOne(env, from, link).Ok? {
      n := UnreadIs(env, from + 1, next, Some(env.archive(from).value.hash));
      if n > from + 1 {
        assert LinksTo(env, from);
      }
    }
  }

  lemma DigestedRows<H>(env: Env<H>, was: Db<H>, from: nat, next: nat, link: Option<Hash>)
    returns (batch: seq<Block>, ts: seq<H>)
    requires from < next && Digested(env, was, from, next, link).Ok?
    ensures IsChain(env, from, next, link) && |batch| == next - from
    ensures forall n: nat :: from <= n < next ==> env.archive(n) == Some(batch[n - from])
    ensures RowsAre(was, from, batch, Digested(env, was, from, next, link).value.0)
    ensures HandlersMake(env, from, batch, ts) && ts[0] == was.tables
    ensures Digested(env, was, from, next, link).value.0.tables == ts[|batch|]
  {
    hide Digested, Handled, WithBlocks, WithRuntimes, ReadAll, IsChain, RuntimesAre;
    BatchIsOneByOne(env, was, from, next, link);
    ReadsIffChain(env, from, next, link);
    ReadsInOrder(env, from, next, link);
    batch := ReadAll(env, from, next, link).value;
    BlockRows(was.blocks, from, batch);
    RuntimeRows(was.runtimes, from, batch);
    ts := HandledIs(env, was.tables, from, batch);
    assert batch[..|batch|] == batch;
  }

  /** And only there: at the table they have made by then, a refusal is the batch's error. */
  lemma {:induction false} RefusalIs<H>(env: Env<H>, from: nat, batch: seq<Block>, ts: seq<H>)
    requires ts != [] && |ts| <= |batch| && HandlersMake(env, from, batch[..|ts| - 1], ts)
    requires env.handler(ts[|ts| - 1], from + |ts| - 1, batch[|ts| - 1]) == None
    ensures Handled(env, ts[0], from, batch) == Err(HandlerFailed(from + |ts| - 1))
    decreases |batch|
  {
    if |ts| > 1 {
      assert env.handler(ts[0], from, batch[..|ts| - 1][0]) == Some(ts[1]);
      forall i | 0 <= i < |ts| - 2
        ensures env.handler(ts[1..][i], from + 1 + i, batch[1..][..|ts| - 2][i]) == Some(ts[1..][i + 1])
      {
        assert batch[..|ts| - 1][i + 1] == batch[1..][..|ts| - 2][i];
      }
      RefusalIs(env, from + 1, batch[1..], ts[1..]);
    }
  }

  /**
   * Where a batch fails: at its first block that is missing or does not link, before any handler has run;
   * or, all of it read, at the first block whose handlers refuse, over the tables they have made by then.
   */
  lemma FailsWhere<H>(env: Env<H>, was: Db<H>, from: nat, to: nat, link: Option<Hash>, e: Failure)
    returns (n: nat, ts: seq<H>)
    requires from <= to && FailsWith(env, was, from, to, link, e)
    ensures from <= n <= to && IsChain(env, from, n, link)
    ensures e == if env.archive(n).None? then Unreadable(n)
                 else if !IsChain(env, from, n + 1, link) then LinkageBroken(n)
                 else HandlerFailed(n)
    ensures e.HandlerFailed? ==>
              && IsChain(env, from, to + 1, link) && |ts| == n - from + 1 && ts[0] == was.tables
              && (forall i :: 0 <= i < n - from ==>
                    env.handler(ts[i], from + i, env.archive(from + i).value) == Some(ts[i + 1]))
              && env.handler(ts[n - from], n, env.archive(n).value) == None
  {
    hide ReadAll, Handled;
    ReadsIffChain(env, from, to + 1, link);
    ts := [was.tables];
    if ReadAll(env, from, to + 1, link).Err? {
      n := UnreadIs(env, from, to + 1, link);
    } else {
      var batch := ReadAll(env, from, to + 1, link).value;
      ReadsInOrder(env, from, to + 1, link);
      ts := HandledIs(env, was.tables, from, batch);
      n := from + |ts| - 1;
      forall i | 0 <= i < n - from
        ensures env.handler(ts[i], from + i, env.archive(from + i).value) == Some(ts[i + 1])
      {
        assert batch[..|ts| - 1][i] == batch[i];
      }
    }
  }

  /**
   * Digesting committed blocks again adds no row and moves no watermark, whatever the batches; the
   * cursor, which is written outright, ends at the end of the replay.
   */
  lemma ReplayAddsNoRows<H>(env: Env<H>, was: Db<H>, from: nat, next: nat, link: Option<Hash>, from': nat, next': nat)
    requires from <= from' < next' <= next
    requires Digested(env, was, from, next, link).Ok?
    requires Digested(env, Digested(env, was, from, next, link).value.0, from', next', None).Ok?
    ensures var db := Digested(env, was, from, next, link).value.0;
            var again := Digested(env, db, from', next', None).value.0;
            && again.blocks == db.blocks && again.runtimes == db.runtimes && again.digest == db.digest
            && again.cursor.Some? && again.cursor.value.0 == next' - 1
  {
    hide Digested, IsChain, Handled;
    var db := Digested(env, was, from, next, link).value.0;
    var again := Digested(env, db, from', next', None).value.0;
    var first, _ := DigestedRows(env, was, from, next, link);
    var second, _ := DigestedRows(env, db, from', next', None);
    assert again.blocks == db.blocks;
    forall i | 0 <= i < |second|
      ensures second[i].spec in db.runtimes
    {
      assert env.archive(from' + i) == Some(second[i]) && second[i] == first[from' + i - from];
    }
    assert again.runtimes == db.runtimes;
  }
}
