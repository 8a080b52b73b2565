/**
 * The sub-identity table and the worklist that keeps it: the accounts a block touched are read
 * again, with every sub-account their lists name, and the table has to follow the chain's links.
 */
module SubIdentities {
  import opened Wrappers

  /** A row of the table, which is keyed by the sub-account. */
  datatype Row = Row(parent: string, name: Option<string>)

  type Table = map<string, Row>

  /** What `SuperOf` says of an account. */
  datatype Link = Absent | Unreadable | Under(row: Row)

  /** The two storage maps at a block; an account with no entry in `subsOf` has no subs. */
  datatype Chain = Chain(superOf: string -> Link, subsOf: map<string, seq<string>>)

  function Subs(chain: Chain, account: string): seq<string> {
    if account in chain.subsOf then chain.subsOf[account] else []
  }

  // ----- syncing one account ------------------------------------------------------------------------

  /** Drop the subs of `account` that its list no longer names. */
  function Retained(t: Table, account: string, keep: seq<string>): Table {
    map s | s in t && !(t[s].parent == account && s !in keep) :: t[s]
  }

  /** An unreadable `SuperOf` leaves the row alone. */
  function Linked(t: Table, account: string, link: Link): Table {
    match link
    case Absent => t - {account}
    case Unreadable => t
    case Under(row) => t[account := row]
  }

  function SyncedOne(t: Table, chain: Chain, account: string): Table {
    Retained(Linked(t, account, chain.superOf(account)), account, Subs(chain, account))
  }

  function SyncedAll(t: Table, chain: Chain, accounts: seq<string>): Table
    decreases |accounts|
  {
    if accounts == [] then t
    else SyncedOne(SyncedAll(t, chain, accounts[..|accounts| - 1]), chain, accounts[|accounts| - 1])
  }

  // ----- what the touched accounts lead to --------------------------------------------------------------

  /** A chain of list entries from a touched account. */
  ghost predicate IsPath(chain: Chain, touched: seq<string>, path: seq<string>) {
    && path != [] && path[0] in touched
    && forall i :: 0 <= i < |path| - 1 ==> path[i + 1] in Subs(chain, path[i])
  }

  ghost predicate Reachable(chain: Chain, touched: seq<string>, account: string) {
    exists path :: IsPath(chain, touched, path) && path[|path| - 1] == account
  }

  lemma ReachesSub(chain: Chain, touched: seq<string>, account: string, sub: string)
    requires Reachable(chain, touched, account) && sub in Subs(chain, account)
    ensures Reachable(chain, touched, sub)
  {
    var path :| IsPath(chain, touched, path) && path[|path| - 1] == account;
    var longer := path + [sub];
    assert IsPath(chain, touched, longer) && longer[|longer| - 1] == sub;
  }

  lemma ReachesTouched(chain: Chain, touched: seq<string>, account: string)
    requires account in touched
    ensures Reachable(chain, touched, account)
  {
    assert IsPath(chain, touched, [account]) && [account][|[account]| - 1] == account;
  }

  ghost predicate ClosedUnder(chain: Chain, touched: seq<string>, done: seq<string>) {
    && (forall a <- touched :: a in done)
    && (forall a <- done :: forall s <- Subs(chain, a) :: s in done)
  }

  lemma {:induction false} PathStaysIn(chain: Chain, touched: seq<string>, done: seq<string>, path: seq<string>)
    requires ClosedUnder(chain, touched, done) && IsPath(chain, touched, path)
    ensures path[|path| - 1] in done
    decreases |path|
  {
    if |path| > 1 {
      var shorter := path[..|path| - 1];
      PathStaysIn(chain, touched, done, shorter);
      assert path[|path| - 2 + 1] in Subs(chain, path[|path| - 2]);
    }
  }

  ghost predicate Distinct(s: seq<string>) {
    forall i, j :: 0 <= i < j < |s| ==> s[i] != s[j]
  }

  /** Every account a sync could ever meet. */
  function Universe(chain: Chain, touched: seq<string>): set<string> {
    (set a | a in touched) + (set p, s | p in chain.subsOf && s in chain.subsOf[p] :: s)
  }

  /** All of it is reachable, and nothing reachable in one step from it or touched is missing. */
  ghost predicate WorklistOk(chain: Chain, touched: seq<string>, queue: seq<string>, done: seq<string>) {
    && (forall a :: a in done || a in queue ==> Reachable(chain, touched, a) && a in Universe(chain, touched))
    && (forall a <- touched :: a in done || a in queue)
    && (forall a <- done :: forall s <- Subs(chain, a) :: s in done || s in queue)
  }

  lemma WorklistStarts(chain: Chain, touched: seq<string>)
    ensures WorklistOk(chain, touched, touched, [])
  {
    forall a | a in touched
      ensures Reachable(chain, touched, a)
    {
      ReachesTouched(chain, touched, a);
    }
  }

  lemma WorklistPops(chain: Chain, touched: seq<string>, queue: seq<string>, account: string, done: seq<string>)
    requires WorklistOk(chain, touched, queue + [account], done) && account in done
    ensures WorklistOk(chain, touched, queue, done)
  {
    assert forall a :: a in queue + [account] <==> a in queue || a == account;
  }

  lemma WorklistInUniverse(chain: Chain, touched: seq<string>, queue: seq<string>, done: seq<string>)
    requires WorklistOk(chain, touched, queue, done)
    ensures forall a <- queue :: a in Universe(chain, touched)
  {
  }

  lemma WorklistAdvances(chain: Chain, touched: seq<string>, queue: seq<string>, account: string, done: seq<string>,
                         next: seq<string>)
    requires WorklistOk(chain, touched, queue + [account], done)
    requires forall a :: a in next <==> a in queue || (a in Subs(chain, account) && a !in done + [account])
    ensures WorklistOk(chain, touched, next, done + [account])
  {
    hide Reachable;
    assert forall a :: a in queue + [account] <==> a in queue || a == account;
    assert forall a :: a in done + [account] <==> a in done || a == account;
    forall s | s in Subs(chain, account)
      ensures Reachable(chain, touched, s) && s in Universe(chain, touched)
    {
      ReachesSub(chain, touched, account, s);
    }
  }

  lemma WorklistEnds(chain: Chain, touched: seq<string>, done: seq<string>)
    requires WorklistOk(chain, touched, [], done)
    ensures forall a :: a in done <==> Reachable(chain, touched, a)
  {
    assert ClosedUnder(chain, touched, done);
    forall a | Reachable(chain, touched, a)
      ensures a in done
    {
      var path :| IsPath(chain, touched, path) && path[|path| - 1] == a;
      PathStaysIn(chain, touched, done, path);
    }
  }

  class Store {
    var rows: Table

    constructor ()
      ensures rows == map[]
    {
      rows := map[];
    }

    method PutSubIdentity(sub: string, row: Row)
      modifies this
      ensures rows == old(rows)[sub := row]
    {
      rows := rows[sub := row];
    }

    method DeleteSubIdentity(sub: string)
      modifies this
      ensures rows == old(rows) - {sub}
    {
      rows := rows - {sub};
    }

    method RetainSubs(account: string, keep: seq<string>)
      modifies this
      ensures rows == Retained(old(rows), account, keep)
    {
      rows := Retained(rows, account, keep);
    }

    /** Re-read one account's links; returns the subs its list names. */
    method SyncAccount(chain: Chain, account: string) returns (subs: seq<string>)
      modifies this
      ensures rows == SyncedOne(old(rows), chain, account) && subs == Subs(chain, account)
    {
      match chain.superOf(account) {
        case Under(row) => PutSubIdentity(account, row);
        case Unreadable =>
        case Absent => DeleteSubIdentity(account);
      }
      subs := Subs(chain, account);
      RetainSubs(account, subs);
    }

    /**
     * Re-read every touched account and every sub-account found on the way: each account reachable
     * through the lists is synced once, no other is, and cycles in the lists do no harm.
     */
    method Sync(chain: Chain, touched: seq<string>) returns (done: seq<string>)
      modifies this
      ensures Distinct(done) && forall a :: a in done <==> Reachable(chain, touched, a)
      ensures rows == SyncedAll(old(rows), chain, done)
    {
      hide ClosedUnder, Reachable, SyncedOne, Universe, Subs, WorklistOk;
      var queue := touched;
      done := [];
      WorklistStarts(chain, touched);
      while queue != []
        invariant Distinct(done) && rows == SyncedAll(old(rows), chain, done)
        invariant WorklistOk(chain, touched, queue, done)
        decreases |Universe(chain, touched) - set a | a in done|, |queue|
      {
        ghost var whole := queue;
        var account := queue[|queue| - 1];
        queue := queue[..|queue| - 1];
        assert whole == queue + [account];
        if account in done {
          WorklistPops(chain, touched, queue, account, done);
          continue;
        }
        WorklistInUniverse(chain, touched, whole, done);
        Smaller(Universe(chain, touched), done, account);
        ghost var before := done;
        done := done + [account];
        var discovered := SyncAccount(chain, account);
        assert done[..|done| - 1] == before;
        ghost var rest := queue;
        queue := PushNew(queue, discovered, done);
        WorklistAdvances(chain, touched, rest, account, before, queue);
      }
      WorklistEnds(chain, touched, done);
    }

    /** Push what was discovered and is not done yet. */
    method PushNew(queue: seq<string>, discovered: seq<string>, done: seq<string>) returns (r: seq<string>)
      ensures forall a :: a in r <==> a in queue || (a in discovered && a !in done)
    {
      r := queue;
      for i := 0 to |discovered|
        invariant forall a :: a in r <==> a in queue || (a in discovered[..i] && a !in done)
      {
        assert discovered[..i + 1] == discovered[..i] + [discovered[i]];
        if discovered[i] !in done {
          r := r + [discovered[i]];
        }
      }
      assert discovered[..|discovered|] == discovered;
    }
  }

  lemma Smaller(universe: set<string>, done: seq<string>, account: string)
    requires account in universe && account !in done
    ensures |universe - set a | a in done + [account]| < |universe - set a | a in done|
  {
    var now, before := universe - (set a | a in done + [account]), universe - set a | a in done;
    assert account in before && now == before - {account};
  }

  // ----- what the table holds afterwards ------------------------------------------------------------------

  function RowOf(t: Table, sub: string): Option<Row> {
    if sub in t then Some(t[sub]) else None
  }

  /** The row the chain's own link asks for. */
  function Wanted(chain: Chain, sub: string): Option<Row> {
    if chain.superOf(sub).Under? then Some(chain.superOf(sub).row) else None
  }

  /** The two storage maps tell the same links. */
  ghost predicate Agree(chain: Chain) {
    forall sub, parent :: chain.superOf(sub) != Unreadable ==>
      (sub in Subs(chain, parent) <==> chain.superOf(sub).Under? && chain.superOf(sub).row.parent == parent)
  }

  /** The row of an account that was not synced itself: gone once its parent's list was read without it. */
  function Kept(t: Table, chain: Chain, done: seq<string>, sub: string): Option<Row> {
    if sub in t && t[sub].parent in done && sub !in Subs(chain, t[sub].parent) then None else RowOf(t, sub)
  }

  lemma {:induction false} RowAfterSync(t: Table, chain: Chain, done: seq<string>, sub: string)
    requires chain.superOf(sub) != Unreadable && (chain.superOf(sub).Under? ==> sub in Subs(chain, chain.superOf(sub).row.parent))
    ensures RowOf(SyncedAll(t, chain, done), sub) == if sub in done then Wanted(chain, sub) else Kept(t, chain, done, sub)
    decreases |done|
  {
    if done != [] {
      RowAfterSync(t, chain, done[..|done| - 1], sub);
      assert done == done[..|done| - 1] + [done[|done| - 1]];
    }
  }

  /**
   * When the lists and the links agree, a sync leaves an account's row as the chain has it if and
   * only if the account was reached, or its row was right already, or its link is gone and the
   * parent it was stored under was reached.
   */
  lemma RowIsRightIff(t: Table, chain: Chain, touched: seq<string>, done: seq<string>, sub: string)
    requires Agree(chain) && chain.superOf(sub) != Unreadable
    requires forall a :: a in done <==> Reachable(chain, touched, a)
    ensures RowOf(SyncedAll(t, chain, done), sub) == Wanted(chain, sub)
            <==> || Reachable(chain, touched, sub) || RowOf(t, sub) == Wanted(chain, sub)
                 || (chain.superOf(sub) == Absent && sub in t && Reachable(chain, touched, t[sub].parent))
  {
    RowAfterSync(t, chain, done, sub);
    if sub in t && t[sub].parent in done && sub in Subs(chain, t[sub].parent) {
      ReachesSub(chain, touched, t[sub].parent, sub);
    }
  }

  ghost predicate Follows(t: Table, chain: Chain) {
    forall sub :: chain.superOf(sub) != Unreadable ==> RowOf(t, sub) == Wanted(chain, sub)
  }

  /**
   * The whole table follows the chain after a block if and only if every link that changed was
   * reached: at its child, or, for a link that is gone, at the parent the table still had.
   */
  lemma TableFollowsIff(t: Table, chain: Chain, touched: seq<string>, done: seq<string>)
    requires Agree(chain) && forall a :: a in done <==> Reachable(chain, touched, a)
    ensures Follows(SyncedAll(t, chain, done), chain)
            <==> forall sub :: chain.superOf(sub) != Unreadable && RowOf(t, sub) != Wanted(chain, sub) ==>
                   || Reachable(chain, touched, sub)
                   || (chain.superOf(sub) == Absent && Reachable(chain, touched, t[sub].parent))
  {
    forall sub | chain.superOf(sub) != Unreadable
      ensures RowOf(SyncedAll(t, chain, done), sub) == Wanted(chain, sub)
              <==> || Reachable(chain, touched, sub) || RowOf(t, sub) == Wanted(chain, sub)
                   || (chain.superOf(sub) == Absent && sub in t && Reachable(chain, touched, t[sub].parent))
    {
      RowIsRightIff(t, chain, touched, done, sub);
    }
  }

  /** An account whose link cannot be read keeps its row unless the parent it is under drops it. */
  lemma {:induction false} UnreadableKeepsRow(t: Table, chain: Chain, done: seq<string>, sub: string)
    requires chain.superOf(sub) == Unreadable
    ensures RowOf(SyncedAll(t, chain, done), sub) == Kept(t, chain, done, sub)
    decreases |done|
  {
    if done != [] {
      UnreadableKeepsRow(t, chain, done[..|done| - 1], sub);
      assert done == done[..|done| - 1] + [done[|done| - 1]];
    }
  }
}
