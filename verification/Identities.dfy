/**
 * The temporal identity table: for each account, the intervals of blocks over which it had each
 * identity. A write closes the open interval and opens the next; the table must equal the history.
 */
module Identities {
  import opened Extrema
  import opened Wrappers

  type Raw = string

  /** Up to and including `to`, or still open. The table's key is the interval's first block. */
  datatype Interval = Interval(to: Option<int>, raw: Raw)

  type Intervals = map<int, Interval>

  // ----- the statements, as functions of one account's rows -------------------------------------------

  predicate IsOpen(m: Intervals, from: int) {
    from in m && m[from].to.None?
  }

  /** Close the open interval the block before `block`, if it began earlier. */
  function Closed(m: Intervals, block: int): Intervals {
    map f | f in m :: if IsOpen(m, f) && f < block then m[f].(to := Some(block - 1)) else m[f]
  }

  function Put(m: Intervals, block: int, raw: Raw): Intervals {
    if exists f <- m :: IsOpen(m, f) && m[f].raw == raw then m
    else Closed(m, block)[block := Interval(None, raw)]
  }

  function Clear(m: Intervals, block: int): Intervals {
    Closed(m, block) - {block}
  }

  function Written(m: Intervals, block: int, row: Option<Raw>): Intervals {
    if row.Some? then Put(m, block, row.value) else Clear(m, block)
  }

  predicate CoversAt(m: Intervals, from: int, n: int) {
    from in m && from <= n && (m[from].to.Some? ==> n <= m[from].to.value)
  }

  /** The row with the highest start among those that cover block `n`. */
  ghost predicate IsAliasAt(m: Intervals, n: int, alias: Option<Raw>) {
    match alias
    case None => forall f <- m :: !CoversAt(m, f, n)
    case Some(raw) => exists f <- m :: CoversAt(m, f, n) && m[f].raw == raw && forall g <- m :: CoversAt(m, g, n) ==> g <= f
  }

  /** Non-empty, in order, disjoint; all begun by `last`, and closed before it unless open. */
  ghost predicate Orderly(m: Intervals, last: int) {
    && (forall f <- m :: f <= last && (m[f].to.Some? ==> f <= m[f].to.value < last))
    && (forall f, g :: f in m && g in m && f < g ==> m[f].to.Some? && m[f].to.value < g)
  }

  type Table = map<string, Intervals>

  function Of(t: Table, account: string): Intervals {
    if account in t then t[account] else map[]
  }

  class Store {
    var table: Table

    constructor ()
      ensures table == map[]
    {
      table := map[];
    }

    /** Write an account's identity as of `block`, or clear it. */
    method PutIdentity(account: string, block: int, row: Option<Raw>)
      requires Orderly(Of(table, account), block)
      modifies this
      ensures table == old(table)[account := Written(Of(old(table), account), block, row)]
    {
      if row.None? {
        ClearIdentity(account, block);
        return;
      }
      var rows := Of(table, account);
      var current: Option<Raw> := None;
      if f :| f in rows && IsOpen(rows, f) {
        current := Some(rows[f].raw);
      }
      if current == row {
        table := table[account := rows];
        return;
      }
      table := table[account := Closed(Of(table, account), block)];
      table := table[account := Of(table, account)[block := Interval(None, row.value)]];
    }

    method ClearIdentity(account: string, block: int)
      modifies this
      ensures table == old(table)[account := Clear(Of(old(table), account), block)]
    {
      table := table[account := Closed(Of(table, account), block)];
      table := table[account := Of(table, account) - {block}];
    }

    method AliasAt(account: string, block: int) returns (alias: Option<Raw>)
      ensures IsAliasAt(Of(table, account), block, alias)
    {
      var rows := Of(table, account);
      var covering := set f | f in rows && CoversAt(rows, f, block);
      if some :| some in covering {
        HighestExists(covering, some);
      } else {
        forall f | f in rows
          ensures !CoversAt(rows, f, block)
        {
          assert f !in covering;
        }
        return None;
      }
      var from :| from in covering && forall f <- covering :: f <= from;
      assert forall f :: f in rows && CoversAt(rows, f, block) ==> f in covering;
      return Some(rows[from].raw);
    }
  }

  // ----- the table is the history -------------------------------------------------------------------

  datatype Write = Write(account: string, block: int, row: Option<Raw>)

  function After(t: Table, writes: seq<Write>): Table
    decreases |writes|
  {
    if writes == [] then t else
    var before, w := After(t, writes[..|writes| - 1]), writes[|writes| - 1];
    before[w.account := Written(Of(before, w.account), w.block, w.row)]
  }

  /** What the last write at or before block `n` said. */
  function LastWrite(writes: seq<Write>, account: string, n: int): Option<Raw>
    decreases |writes|
  {
    if writes == [] then None else
    var w := writes[|writes| - 1];
    if w.account == account && w.block <= n then w.row else LastWrite(writes[..|writes| - 1], account, n)
  }

  ghost predicate InOrder(writes: seq<Write>, last: int) {
    && (forall i, j :: 0 <= i < j < |writes| ==> writes[i].block <= writes[j].block)
    && (forall w <- writes :: w.block <= last)
  }

  lemma OrderlyLater(m: Intervals, last: int, later: int)
    requires Orderly(m, last) && last <= later
    ensures Orderly(m, later)
  {
  }

  lemma WrittenOrderly(m: Intervals, block: int, row: Option<Raw>)
    requires Orderly(m, block)
    ensures Orderly(Written(m, block, row), block)
  {
    ClosedOrderly(m, block);
  }

  lemma ClosedOrderly(m: Intervals, block: int)
    requires Orderly(m, block)
    ensures Orderly(Closed(m, block), block)
    ensures forall f <- Closed(m, block) :: f < block ==> !IsOpen(Closed(m, block), f)
  {
  }

  /** Which row covers a block before the write, and what it says, does not change. */
  lemma WriteKeepsPast(m: Intervals, block: int, row: Option<Raw>, n: int)
    requires Orderly(m, block) && n < block
    ensures forall f :: CoversAt(Written(m, block, row), f, n) <==> CoversAt(m, f, n)
    ensures forall f :: CoversAt(m, f, n) ==> Written(m, block, row)[f].raw == m[f].raw
  {
  }

  lemma PastStays(m: Intervals, block: int, row: Option<Raw>, n: int, was: Option<Raw>)
    requires Orderly(m, block) && IsAliasAt(m, n, was) && n < block
    ensures IsAliasAt(Written(m, block, row), n, was)
  {
    var w := Written(m, block, row);
    WriteKeepsPast(m, block, row, n);
    hide Written, Orderly, CoversAt;
    if was.Some? {
      var f :| f in m && CoversAt(m, f, n) && m[f].raw == was.value && forall g <- m :: CoversAt(m, g, n) ==> g <= f;
      assert f in w && CoversAt(w, f, n) && w[f].raw == was.value;
    }
  }

  lemma ClearDecides(m: Intervals, block: int, n: int)
    requires Orderly(m, block) && block <= n
    ensures forall f <- Clear(m, block) :: !CoversAt(Clear(m, block), f, n)
  {
  }

  lemma PutDecides(m: Intervals, block: int, raw: Raw, n: int)
    requires Orderly(m, block) && block <= n
    ensures IsAliasAt(Put(m, block, raw), n, Some(raw))
  {
    var w := Put(m, block, raw);
    if f :| f in m && IsOpen(m, f) && m[f].raw == raw {
      assert w == m && CoversAt(w, f, n);
    } else {
      assert CoversAt(w, block, n) && w[block].raw == raw && forall g <- w :: g <= block;
    }
  }

  /** A write decides every block from its own on, and leaves the blocks before it as they were. */
  lemma WriteDecides(m: Intervals, block: int, row: Option<Raw>, n: int, was: Option<Raw>)
    requires Orderly(m, block) && IsAliasAt(m, n, was)
    ensures IsAliasAt(Written(m, block, row), n, if block <= n then row else was)
  {
    hide Orderly, Put, Clear, CoversAt;
    if n < block {
      PastStays(m, block, row, n, was);
    } else if row.Some? {
      PutDecides(m, block, row.value, n);
    } else {
      ClearDecides(m, block, n);
    }
  }

  /**
   * For any sets and clears at blocks that never go back: every account's intervals are non-empty,
   * disjoint and in order with at most the last one open, and the identity read at any block is
   * the one the last write at or before that block set.
   */
  lemma {:induction false} TableIsHistory(writes: seq<Write>, last: int, account: string, n: int)
    requires InOrder(writes, last)
    ensures Orderly(Of(After(map[], writes), account), last)
    ensures IsAliasAt(Of(After(map[], writes), account), n, LastWrite(writes, account, n))
    decreases |writes|
  {
    if writes != [] {
      var w, rest := writes[|writes| - 1], writes[..|writes| - 1];
      TableIsHistory(rest, w.block, account, n);
      var before := Of(After(map[], rest), account);
      if w.account == account {
        WrittenOrderly(before, w.block, w.row);
        WriteDecides(before, w.block, w.row, n, LastWrite(rest, account, n));
      }
      OrderlyLater(Of(After(map[], writes), account), w.block, last);
    }
  }

  /** The query has one answer: no block is covered twice. */
  lemma AliasIsUnique(m: Intervals, last: int, n: int, a: Option<Raw>, b: Option<Raw>)
    requires Orderly(m, last) && IsAliasAt(m, n, a) && IsAliasAt(m, n, b)
    ensures a == b
  {
  }

  // ----- writing again --------------------------------------------------------------------------------

  /** Setting the identity an account already has opens no interval, at that block or any later one. */
  lemma SameIdentityIsNoOp(m: Intervals, block: int, raw: Raw, later: int)
    ensures Put(Put(m, block, raw), later, raw) == Put(m, block, raw)
  {
    var w := Put(m, block, raw);
    if f :| f in m && IsOpen(m, f) && m[f].raw == raw {
      assert w == m;
    } else {
      assert IsOpen(w, block) && w[block].raw == raw;
    }
  }

  function WrittenAll(m: Intervals, block: int, rows: seq<Option<Raw>>): Intervals
    decreases |rows|
  {
    if rows == [] then m else WrittenAll(Written(m, block, rows[0]), block, rows[1..])
  }

  /** The rows as the first effective write at a block leaves the earlier ones. */
  ghost predicate SplitAt(m: Intervals, block: int) {
    forall f <- m :: f <= block && (IsOpen(m, f) <==> f == block)
  }

  lemma {:induction false} SplitWrites(m: Intervals, block: int, rows: seq<Option<Raw>>)
    requires SplitAt(m, block) && rows != []
    ensures var row := rows[|rows| - 1];
            WrittenAll(m, block, rows)
            == if row.Some? then m[block := Interval(None, row.value)] else m - {block}
    decreases |rows|
  {
    var w := Written(m, block, rows[0]);
    assert w == if rows[0].Some? then m[block := Interval(None, rows[0].value)] else m - {block};
    if |rows| == 1 {
      assert WrittenAll(w, block, rows[1..]) == w;
    } else {
      SplitWrites(w, block, rows[1..]);
    }
  }

  /** After a block's writes: as before if none of them changed anything, and split at it otherwise. */
  lemma {:induction false} EndsSplit(m: Intervals, block: int, rows: seq<Option<Raw>>)
    requires Orderly(m, block) && rows != []
    ensures var end, last := WrittenAll(m, block, rows), rows[|rows| - 1];
            || (end == m && forall row <- rows :: Written(m, block, row) == m)
            || (SplitAt(end, block) && if last.Some? then block in end && end[block] == Interval(None, last.value)
                                       else block !in end)
    decreases |rows|
  {
    var w := Written(m, block, rows[0]);
    if w != m {
      assert SplitAt(w, block);
      if |rows| > 1 {
        SplitWrites(w, block, rows[1..]);
      }
    } else if |rows| > 1 {
      EndsSplit(m, block, rows[1..]);
      assert forall row :: row in rows <==> row == rows[0] || row in rows[1..];
    }
  }

  lemma {:induction false} NoChanges(m: Intervals, block: int, rows: seq<Option<Raw>>)
    requires forall row <- rows :: Written(m, block, row) == m
    ensures WrittenAll(m, block, rows) == m
    decreases |rows|
  {
    if rows != [] {
      NoChanges(m, block, rows[1..]);
    }
  }

  /** Digesting a block again repeats its writes, however many, and leaves the same rows. */
  lemma ReplayedBlockIsNoOp(m: Intervals, block: int, rows: seq<Option<Raw>>)
    requires Orderly(m, block)
    ensures WrittenAll(WrittenAll(m, block, rows), block, rows) == WrittenAll(m, block, rows)
  {
    if rows != [] {
      var end := WrittenAll(m, block, rows);
      EndsSplit(m, block, rows);
      if end == m && forall row <- rows :: Written(m, block, row) == m {
        NoChanges(m, block, rows);
      } else {
        SplitWrites(end, block, rows);
      }
    }
  }
}
