/**
 * The archive of storage reads: what a handler read from a node at a block is written back under
 * that block, and answers the same handler again with no node at all.
 */
module ReadCache {
  import Layout
  import opened LittleEndian
  import SegmentFormat
  import opened Segstore
  import StoreRefinement
  import opened Wrappers

  /** A pallet entry and its rendered keys. */
  datatype ReadKey = ReadKey(pallet: string, entry: string, keys: string)

  /** The JSON text under a key, or none: the key is absent from the chain's state. */
  type Answer = Option<string>

  type Entries = seq<(ReadKey, Answer)>

  // ----- the reads of one block -------------------------------------------------------------------

  /** The archived answer: `None` for a read never made, `Some(None)` for an archived absence. */
  function Lookup(entries: Entries, key: ReadKey): Option<Answer> {
    if entries == [] then None
    else if entries[0].0 == key then Some(entries[0].1)
    else Lookup(entries[1..], key)
  }

  function Inserted(entries: Entries, key: ReadKey, answer: Answer): Entries {
    if entries == [] then [(key, answer)]
    else if entries[0].0 == key then [(key, answer)] + entries[1..]
    else [entries[0]] + Inserted(entries[1..], key, answer)
  }

  /** An insert replaces the answer of its own key and no other. */
  lemma {:induction false} LookupAfterInsert(entries: Entries, key: ReadKey, answer: Answer, other: ReadKey)
    ensures Lookup(Inserted(entries, key, answer), other)
            == if other == key then Some(answer) else Lookup(entries, other)
    decreases |entries|
  {
    if entries != [] && entries[0].0 != key {
      LookupAfterInsert(entries[1..], key, answer, other);
      assert Inserted(entries, key, answer)[1..] == Inserted(entries[1..], key, answer);
    } else {
      assert Inserted(entries, key, answer)[1..] == if entries == [] then [] else entries[1..];
    }
  }

  /** The key's own entry, or the length when it has none. */
  ghost predicate IsPosition(entries: Entries, key: ReadKey, i: nat) {
    i <= |entries| && (i < |entries| ==> entries[i].0 == key) && forall j :: 0 <= j < i ==> entries[j].0 != key
  }

  lemma {:induction false} AtPosition(entries: Entries, key: ReadKey, i: nat, answer: Answer)
    requires IsPosition(entries, key, i)
    ensures Lookup(entries, key) == if i < |entries| then Some(entries[i].1) else None
    ensures Inserted(entries, key, answer)
            == if i < |entries| then entries[i := (key, answer)] else entries + [(key, answer)]
    decreases |entries|
  {
    if i > 0 {
      AtPosition(entries[1..], key, i - 1, answer);
      assert entries == [entries[0]] + entries[1..];
    } else if entries != [] {
      assert entries[0 := (key, answer)] == [(key, answer)] + entries[1..];
    }
  }

  method Find(entries: Entries, key: ReadKey) returns (i: nat)
    ensures IsPosition(entries, key, i)
  {
    i := 0;
    while i < |entries| && entries[i].0 != key
      invariant i <= |entries| && forall j :: 0 <= j < i ==> entries[j].0 != key
    {
      i := i + 1;
    }
  }

  class BlockReads {
    var entries: Entries

    constructor (entries: Entries)
      ensures this.entries == entries
    {
      this.entries := entries;
    }

    method Get(key: ReadKey) returns (r: Option<Answer>)
      ensures r == Lookup(entries, key)
    {
      var i := Find(entries, key);
      AtPosition(entries, key, i, None);
      return if i < |entries| then Some(entries[i].1) else None;
    }

    method Insert(key: ReadKey, answer: Answer)
      modifies this
      ensures entries == Inserted(old(entries), key, answer)
    {
      var i := Find(entries, key);
      AtPosition(entries, key, i, answer);
      if i < |entries| {
        entries := entries[i := (key, answer)];
      } else {
        entries := entries + [(key, answer)];
      }
    }
  }

  // ----- one handler over one block ---------------------------------------------------------------

  datatype Move<+R> = Ask(key: ReadKey) | Finish(result: R)

  /** An adaptive handler: the answers so far decide what it asks next, or its result. */
  type Handler<!R> = seq<Answer> -> Move<R>

  /** What a node says to a read, if it can be reached. */
  type Node = ReadKey -> Option<Answer>

  datatype Failure =
    /** No archived answer, and no node to ask. */
    | NotArchived(key: ReadKey)
    /** The node could not be reached, or refused. */
    | ReadFailed(key: ReadKey)

  datatype Outcome<+R> =
    | Finished(result: R)
    | Failed(failure: Failure)
    /** Still asking after the reads it was given. */
    | Unfinished

  datatype Pass<+R> = Pass(outcome: Outcome<R>, answers: seq<Answer>, entries: Entries, learned: bool)

  /** The answer to one read: the archive's, or else the node's. */
  function Served(entries: Entries, key: ReadKey, node: Option<Node>): Result<Answer, Failure> {
    match Lookup(entries, key)
    case Some(answer) => Ok(answer)
    case None =>
      match node
      case None => Err(NotArchived(key))
      case Some(live) => if live(key).Some? then Ok(live(key).value) else Err(ReadFailed(key))
  }

  function Learned(entries: Entries, key: ReadKey, answer: Answer): Entries {
    if Lookup(entries, key).Some? then entries else Inserted(entries, key, answer)
  }

  /** A handler that has had these answers runs on, for at most `most` more of them. */
  function Run<R>(h: Handler<R>, answers: seq<Answer>, entries: Entries, learned: bool, node: Option<Node>,
                  most: nat): Pass<R>
    decreases most
  {
    match h(answers)
    case Finish(result) => Pass(Finished(result), answers, entries, learned)
    case Ask(key) =>
      if most == 0 then Pass(Unfinished, answers, entries, learned) else
      match Served(entries, key, node)
      case Err(f) => Pass(Failed(f), answers, entries, learned)
      case Ok(answer) =>
        Run(h, answers + [answer], Learned(entries, key, answer), learned || Lookup(entries, key).None?, node, most - 1)
  }

  // ----- the archive --------------------------------------------------------------------------------

  /** How the reads of a block become a record, and back. */
  datatype Encoding = Encoding(encode: Entries -> Bytes, decode: Bytes -> Entries)

  /** Where a chain's reads are kept. */
  datatype Place = Place(chain: string, size: nat, code: Encoding)

  ghost predicate PlaceOk(at: Place) {
    at.size > 0 && forall entries :: at.code.decode(at.code.encode(entries)) == entries
  }

  /** The reads archived for a block: what its record in the two-tier store says, or none. */
  function Recorded(st: Store, at: Place, block: nat): Entries
    requires at.size > 0
  {
    match View(st, KeyOf(at.chain, block, at.size), block)
    case None => []
    case Some(payload) => at.code.decode(payload)
  }

  function Written(st: Store, at: Place, block: nat, entries: Entries): Store
    requires at.size > 0
  {
    PutRecord(st, KeyOf(at.chain, block, at.size), SegmentFormat.Record(block, at.code.encode(entries)))
  }

  /** The archive, one record of reads per block. */
  class StorageCache {
    const at: Place
    const segments: Segments

    constructor (at: Place, segments: Segments)
      ensures this.at == at && this.segments == segments
    {
      this.at, this.segments := at, segments;
    }

    ghost predicate Valid()
      reads this, segments
    {
      PlaceOk(at) && segments.Valid() && segments.size == at.size
    }

    method Get(block: nat) returns (r: Option<Entries>)
      requires Valid()
      modifies segments
      ensures Valid() && segments.Abs() == old(segments.Abs())
      ensures Recorded(segments.Abs(), at, block) == if r.Some? then r.value else []
    {
      var payload := segments.Get(at.chain, block);
      return if payload.Some? then Some(at.code.decode(payload.value)) else None;
    }

    method Put(block: nat, entries: Entries)
      requires Valid()
      modifies segments
      ensures Valid() && segments.Abs() == Written(old(segments.Abs()), at, block, entries)
    {
      segments.Put(at.chain, block, at.code.encode(entries));
    }
  }

  /** One block's state as its handlers see it during one pass. */
  class CachedStorage {
    const cache: StorageCache
    const block: nat
    var slot: BlockReads?
    var learned: bool

    constructor (cache: StorageCache, block: nat)
      ensures this.cache == cache && this.block == block && slot == null && !learned
    {
      this.cache, this.block, slot, learned := cache, block, null, false;
    }

    ghost predicate Valid()
      reads this, cache, cache.segments
    {
      cache.Valid() && (learned ==> slot != null)
    }

    /** The reads in hand, or the block's record when nothing was asked yet. */
    ghost function View(): Entries
      requires cache.at.size > 0
      reads this, slot, cache, cache.segments
    {
      if slot != null then slot.entries else Recorded(cache.segments.Abs(), cache.at, block)
    }

    method Fetch(key: ReadKey, node: Option<Node>) returns (r: Result<Answer, Failure>)
      requires Valid()
      modifies this, slot, cache.segments
      ensures Valid() && (slot == old(slot) || fresh(slot)) && cache.segments.Abs() == old(cache.segments.Abs())
      ensures r == Served(old(View()), key, node)
      ensures match Lookup(old(View()), key)
              case Some(answer) => r == Ok(answer) && View() == old(View()) && learned == old(learned)
              case None =>
                if node.None? then r == Err(NotArchived(key)) && View() == old(View()) && learned == old(learned)
                else match node.value(key)
                  case None => r == Err(ReadFailed(key)) && View() == old(View()) && learned == old(learned)
                  case Some(answer) => r == Ok(answer) && Lookup(View(), key) == Some(answer) && learned
      ensures View() == if r.Ok? then Learned(old(View()), key, r.value) else old(View())
      ensures learned == (old(learned) || (r.Ok? && Lookup(old(View()), key).None?))
    {
      if slot == null {
        var record := cache.Get(block);
        slot := new BlockReads(if record.Some? then record.value else []);
      }
      var archived := slot.Get(key);
      if archived.Some? {
        return Ok(archived.value);
      }
      if node.None? {
        return Err(NotArchived(key));
      }
      var value := node.value(key);
      if value.None? {
        return Err(ReadFailed(key));
      }
      ghost var before := slot.entries;
      slot.Insert(key, value.value);
      LookupAfterInsert(before, key, value.value, key);
      learned := true;
      return Ok(value.value);
    }

    /** Run a handler against this view. */
    method Serve<R>(h: Handler<R>, node: Option<Node>, most: nat) returns (outcome: Outcome<R>, answers: seq<Answer>)
      requires Valid()
      modifies this, slot, cache.segments
      ensures Valid() && (slot == old(slot) || fresh(slot)) && cache.segments.Abs() == old(cache.segments.Abs())
      ensures Pass(outcome, answers, View(), learned) == Run(h, [], old(View()), old(learned), node, most)
    {
      var left := most;
      answers := [];
      while true
        invariant Valid() && (slot == old(slot) || fresh(slot)) && cache.segments.Abs() == old(cache.segments.Abs())
        invariant Run(h, [], old(View()), old(learned), node, most) == Run(h, answers, View(), learned, node, left)
        decreases left
      {
        match h(answers) {
          case Finish(result) => return Finished(result), answers;
          case Ask(key) =>
            if left == 0 {
              return Unfinished, answers;
            }
            var answer := Fetch(key, node);
            if answer.Err? {
              return Failed(answer.error), answers;
            }
            answers, left := answers + [answer.value], left - 1;
        }
      }
    }

    /** Write back what this pass learned, if anything. */
    method Persist()
      requires Valid()
      modifies this`learned, cache.segments
      ensures Valid() && !learned && slot == old(slot)
      ensures cache.segments.Abs() == if old(learned) then Written(old(cache.segments.Abs()), cache.at, block, old(View()))
                                      else old(cache.segments.Abs())
    {
      if !learned {
        return;
      }
      cache.Put(block, slot.entries);
      learned := false;
    }
  }

  // ----- replay ---------------------------------------------------------------------------------

  /** Everything archived stays archived, with the same answer. */
  ghost predicate Grows(entries: Entries, later: Entries) {
    forall key :: Lookup(entries, key).Some? ==> Lookup(later, key) == Lookup(entries, key)
  }

  lemma {:induction false} RunGrows<R>(h: Handler<R>, answers: seq<Answer>, entries: Entries, learned: bool,
                                       node: Option<Node>, most: nat)
    ensures var p := Run(h, answers, entries, learned, node, most);
            Grows(entries, p.entries) && (learned ==> p.learned) && (!p.learned ==> p.entries == entries)
    decreases most
  {
    match h(answers) {
      case Finish(_) =>
      case Ask(key) =>
        if most > 0 && Served(entries, key, node).Ok? {
          var answer := Served(entries, key, node).value;
          LearnedGrows(entries, key, answer);
          RunGrows(h, answers + [answer], Learned(entries, key, answer), learned || Lookup(entries, key).None?, node,
                   most - 1);
        }
    }
  }

  lemma LearnedGrows(entries: Entries, key: ReadKey, answer: Answer)
    ensures Grows(entries, Learned(entries, key, answer))
    ensures Lookup(entries, key).None? ==> Lookup(Learned(entries, key, answer), key) == Some(answer)
  {
    forall other
      ensures Lookup(entries, key).None? ==>
                Lookup(Inserted(entries, key, answer), other) == if other == key then Some(answer) else Lookup(entries, other)
    {
      LookupAfterInsert(entries, key, answer, other);
    }
  }

  /**
   * Once a pass has finished, the same handler over its entries, or over any that grew from them,
   * gives the same answers and the same result with no node, and learns nothing new.
   */
  lemma {:induction false} OfflineReplays<R>(h: Handler<R>, answers: seq<Answer>, entries: Entries, learned: bool,
                                             node: Option<Node>, most: nat, later: Entries, anyNode: Option<Node>)
    requires var p := Run(h, answers, entries, learned, node, most); p.outcome.Finished? && Grows(p.entries, later)
    ensures var p := Run(h, answers, entries, learned, node, most);
            Run(h, answers, later, false, anyNode, most) == Pass(p.outcome, p.answers, later, false)
    decreases most
  {
    match h(answers) {
      case Finish(_) =>
      case Ask(key) =>
        var answer := Served(entries, key, node).value;
        var next, asked := Learned(entries, key, answer), learned || Lookup(entries, key).None?;
        LearnedGrows(entries, key, answer);
        RunGrows(h, answers + [answer], next, asked, node, most - 1);
        assert Lookup(next, key) == Some(answer);
        OfflineReplays(h, answers + [answer], next, asked, node, most - 1, later, anyNode);
    }
  }

  // ----- the archive and the chain ------------------------------------------------------------------

  type ChainState = ReadKey -> Answer

  ghost predicate Agrees(entries: Entries, state: ChainState) {
    forall key :: Lookup(entries, key).Some? ==> Lookup(entries, key).value == state(key)
  }

  /** A node that, when it answers, answers from this state. */
  ghost predicate Honest(node: Node, state: ChainState) {
    forall key :: node(key).Some? ==> node(key).value == state(key)
  }

  /** The keys a handler asks for over this state, and its result if it finishes. */
  function Ideal<R>(h: Handler<R>, answers: seq<Answer>, state: ChainState, most: nat): (seq<ReadKey>, Option<R>)
    decreases most
  {
    match h(answers)
    case Finish(result) => ([], Some(result))
    case Ask(key) =>
      if most == 0 then ([], None) else
      var rest := Ideal(h, answers + [state(key)], state, most - 1);
      ([key] + rest.0, rest.1)
  }

  /**
   * Over an archive that agrees with the chain, a pass that gets to its end, live or not, gets the
   * result the chain's own state gives; and what it learns agrees with the chain again.
   */
  lemma {:induction false} RunAgrees<R>(h: Handler<R>, answers: seq<Answer>, entries: Entries, learned: bool,
                                        node: Option<Node>, most: nat, state: ChainState)
    requires Agrees(entries, state) && (node.Some? ==> Honest(node.value, state))
    ensures var p := Run(h, answers, entries, learned, node, most);
            Agrees(p.entries, state)
            && (p.outcome.Finished? ==> Ideal(h, answers, state, most).1 == Some(p.outcome.result))
    decreases most
  {
    match h(answers) {
      case Finish(_) =>
      case Ask(key) =>
        if most > 0 && Served(entries, key, node).Ok? {
          var next := Learned(entries, key, state(key));
          forall other | Lookup(next, other).Some?
            ensures Lookup(next, other).value == state(other)
          {
            LookupAfterInsert(entries, key, state(key), other);
          }
          RunAgrees(h, answers + [state(key)], next, learned || Lookup(entries, key).None?, node, most - 1, state);
        }
    }
  }

  ghost predicate AllArchived(entries: Entries, keys: seq<ReadKey>) {
    forall key <- keys :: Lookup(entries, key).Some?
  }

  /**
   * With no node, a handler gets to its end if and only if every read it makes over the chain's
   * state is archived, absences included; otherwise it stops at a read that is not, by name.
   */
  lemma {:induction false} OfflineFinishesIff<R>(h: Handler<R>, answers: seq<Answer>, entries: Entries, most: nat,
                                                 state: ChainState)
    requires Agrees(entries, state) && Ideal(h, answers, state, most).1.Some?
    ensures var p, keys := Run(h, answers, entries, false, None, most), Ideal(h, answers, state, most).0;
            && !p.learned && p.entries == entries
            && (p.outcome.Finished? <==> AllArchived(entries, keys))
            && (!p.outcome.Finished? ==>
                  p.outcome.Failed? && p.outcome.failure.NotArchived?
                  && p.outcome.failure.key in keys && Lookup(entries, p.outcome.failure.key).None?)
    decreases most
  {
    match h(answers) {
      case Finish(_) =>
      case Ask(key) =>
        var rest := Ideal(h, answers + [state(key)], state, most - 1).0;
        if Lookup(entries, key).Some? {
          OfflineFinishesIff(h, answers + [state(key)], entries, most - 1, state);
          assert forall k :: k in [key] + rest <==> k == key || k in rest;
        } else {
          assert key in [key] + rest;
        }
    }
  }

  /** The archive has the read, or the node answers it. */
  predicate Available(entries: Entries, node: Option<Node>, key: ReadKey) {
    Lookup(entries, key).Some? || (node.Some? && node.value(key).Some?)
  }

  /**
   * Over an archive that agrees with the chain, and a node that is honest if there is one, a pass gets to
   * its end if and only if every read it makes over the chain's state is archived or answered. Then all of
   * them are archived, and it has learned something just when one of them was not before. Otherwise it
   * stops at a read that is neither, by name.
   */
  lemma {:induction false} PassFinishesIff<R>(h: Handler<R>, answers: seq<Answer>, entries: Entries, learned: bool,
                                              node: Option<Node>, most: nat, state: ChainState)
    requires Agrees(entries, state) && (node.Some? ==> Honest(node.value, state))
    requires Ideal(h, answers, state, most).1.Some?
    ensures var p, ideal := Run(h, answers, entries, learned, node, most), Ideal(h, answers, state, most);
            && (p.outcome.Finished? <==> forall key <- ideal.0 :: Available(entries, node, key))
            && (p.outcome.Finished? ==>
                  && p.outcome.result == ideal.1.value && AllArchived(p.entries, ideal.0)
                  && (p.learned <==> learned || !AllArchived(entries, ideal.0)))
            && (!p.outcome.Finished? ==>
                  exists key <- ideal.0 ::
                    !Available(entries, node, key)
                    && p.outcome == Failed(if node.None? then NotArchived(key) else ReadFailed(key)))
    decreases most
  {
    match h(answers) {
      case Finish(_) =>
      case Ask(key) =>
        var keys := Ideal(h, answers + [state(key)], state, most - 1).0;
        assert forall k :: k in [key] + keys <==> k == key || k in keys;
        if Available(entries, node, key) {
          LearnsOne(h, answers, entries, learned, node, most, state, key);
        }
    }
  }

  /** One read of such a pass: what it learns makes nothing else available. */
  lemma {:induction false} LearnsOne<R>(h: Handler<R>, answers: seq<Answer>, entries: Entries, learned: bool,
                                        node: Option<Node>, most: nat, state: ChainState, key: ReadKey)
    requires Agrees(entries, state) && (node.Some? ==> Honest(node.value, state))
    requires Ideal(h, answers, state, most).1.Some? && h(answers) == Ask(key) && Available(entries, node, key)
    ensures var p, keys := Run(h, answers, entries, learned, node, most), Ideal(h, answers + [state(key)], state, most - 1).0;
            && (p.outcome.Finished? <==> forall k <- keys :: Available(entries, node, k))
            && (p.outcome.Finished? ==>
                  && p.outcome.result == Ideal(h, answers, state, most).1.value
                  && Lookup(p.entries, key).Some? && AllArchived(p.entries, keys)
                  && (p.learned <==> learned || Lookup(entries, key).None? || !AllArchived(entries, keys)))
            && (!p.outcome.Finished? ==>
                  exists k <- keys ::
                    !Available(entries, node, k)
                    && p.outcome == Failed(if node.None? then NotArchived(k) else ReadFailed(k)))
    decreases most, 0
  {
    var next, asked := Learned(entries, key, state(key)), learned || Lookup(entries, key).None?;
    forall other
      ensures Lookup(next, other) == if other == key then Some(state(key)) else Lookup(entries, other)
    {
      LookupAfterInsert(entries, key, state(key), other);
    }
    PassFinishesIff(h, answers + [state(key)], next, asked, node, most - 1, state);
    RunGrows(h, answers + [state(key)], next, asked, node, most - 1);
  }

  // ----- many passes ------------------------------------------------------------------------------

  /** A block's handlers, the node as it answered during the pass, and a bound on the reads made. */
  datatype Attempt<!R> = Attempt(block: nat, h: Handler<R>, node: Option<Node>, most: nat)

  function PassOver<R>(st: Store, at: Place, a: Attempt<R>): Pass<R>
    requires at.size > 0
  {
    Run(a.h, [], Recorded(st, at, a.block), false, a.node, a.most)
  }

  predicate AllFinish<R>(st: Store, at: Place, batch: seq<Attempt<R>>)
    requires at.size > 0
  {
    forall i :: 0 <= i < |batch| ==> PassOver(st, at, batch[i]).outcome.Finished?
  }

  /** Write back what the first `n` passes learned, each having run over `was`. */
  function Persisted<R>(was: Store, at: Place, batch: seq<Attempt<R>>, n: nat): Store
    requires at.size > 0 && n <= |batch|
  {
    if n == 0 then was else
    var before, p := Persisted(was, at, batch, n - 1), PassOver(was, at, batch[n - 1]);
    if p.learned then Written(before, at, batch[n - 1].block, p.entries) else before
  }

  /**
   * What happens to the archive: a batch of blocks is digested, and its reads are written back after
   * it commits, the first `n` of them when the process dies then; a pass copies or drops a segment; or a
   * power loss takes the write-backs of a segment after its first `n` records.
   */
  datatype CacheOp<!R> =
    | Digested(batch: seq<Attempt<R>>, n: nat)
    | Copied(k: Key)
    | Dropped(k: Key)
    | Lost(k: Key, n: nat)

  function AfterOp<R>(st: Store, at: Place, op: CacheOp<R>): Store
    requires at.size > 0
  {
    match op
    case Digested(batch, n) => if AllFinish(st, at, batch) && n <= |batch| then Persisted(st, at, batch, n) else st
    case Copied(k) => if k in st.hot then CopySegment(st, k) else st
    case Dropped(k) => DropSegment(st, k)
    case Lost(k, n) => if k in st.hot && n <= |st.hot[k]| then st.(hot := st.hot[k := st.hot[k][..n]]) else st
  }

  function AfterOps<R>(st: Store, at: Place, ops: seq<CacheOp<R>>): Store
    requires at.size > 0
    decreases |ops|
  {
    if ops == [] then st else AfterOps(AfterOp(st, at, ops[0]), at, ops[1..])
  }

  lemma PersistedOne<R>(was: Store, at: Place, batch: seq<Attempt<R>>, i: nat)
    requires at.size > 0 && i < |batch|
    ensures var p := PassOver(was, at, batch[i]);
            Persisted(was, at, batch, i + 1)
            == if p.learned then Written(Persisted(was, at, batch, i), at, batch[i].block, p.entries)
               else Persisted(was, at, batch, i)
  {
  }

  lemma PersistedNone<R>(was: Store, at: Place, batch: seq<Attempt<R>>)
    requires at.size > 0
    ensures Persisted(was, at, batch, 0) == was
  {
  }

  /** The view served by a storage after its block's pass. */
  ghost predicate InHand<R>(storage: CachedStorage, p: Pass<R>)
    reads storage, storage.slot
  {
    storage.learned == p.learned && (p.learned ==> storage.slot != null && storage.slot.entries == p.entries)
  }

  /**
   * A batch of blocks: every block's handlers run against a view of their own; when one of them does
   * not finish nothing commits, and otherwise the views are written back one after the other. The
   * process dies after `n` of them.
   */
  method DigestBatch<R>(cache: StorageCache, batch: seq<Attempt<R>>, n: nat) returns (committed: bool)
    requires cache.Valid() && n <= |batch|
    modifies cache.segments
    ensures cache.Valid()
    ensures committed == AllFinish(old(cache.segments.Abs()), cache.at, batch)
    ensures cache.segments.Abs() == AfterOp(old(cache.segments.Abs()), cache.at, Digested(batch, n))
  {
    hide Recorded, Written, Run, Persisted;
    ghost var was := cache.segments.Abs();
    var storages: seq<CachedStorage> := [];
    for i := 0 to |batch|
      invariant |storages| == i && cache.Valid() && cache.segments.Abs() == was
      invariant forall j :: 0 <= j < i ==> fresh(storages[j]) && storages[j].cache == cache
      invariant forall j :: 0 <= j < i ==> storages[j].block == batch[j].block
      invariant forall j, k :: 0 <= j < k < i ==> storages[j] != storages[k]
      invariant forall j :: 0 <= j < i ==> InHand(storages[j], PassOver(was, cache.at, batch[j]))
      invariant forall j :: 0 <= j < i ==> storages[j].slot == null || fresh(storages[j].slot)
      invariant forall j :: 0 <= j < i ==> PassOver(was, cache.at, batch[j]).outcome.Finished?
    {
      var a := batch[i];
      var storage := new CachedStorage(cache, a.block);
      var outcome, answers := storage.Serve(a.h, a.node, a.most);
      if !outcome.Finished? {
        return false;
      }
      storages := storages + [storage];
    }
    PersistedNone(was, cache.at, batch);
    for i := 0 to n
      invariant cache.Valid() && cache.segments.Abs() == Persisted(was, cache.at, batch, i)
      invariant forall j :: i <= j < |batch| ==> InHand(storages[j], PassOver(was, cache.at, batch[j]))
    {
      PersistedOne(was, cache.at, batch, i);
      storages[i].Persist();
    }
    return true;
  }

  /** Writing `block` would hide what the cold copy holds for `other`. */
  predicate Hides(st: Store, at: Place, block: nat, other: nat)
    requires at.size > 0
  {
    && block != other && KeyOf(at.chain, block, at.size) == KeyOf(at.chain, other, at.size)
    && StoreRefinement.Shadows(st, KeyOf(at.chain, other, at.size))
  }

  /**
   * Writing one block's reads leaves another block's as they were if and only if it does not land
   * beside a cold-only copy that holds some.
   */
  lemma LearningHidesIff(st: Store, at: Place, block: nat, entries: Entries, other: nat)
    requires PlaceOk(at)
    ensures Recorded(Written(st, at, block, entries), at, block) == entries
    ensures other != block ==>
              (Recorded(Written(st, at, block, entries), at, other) == Recorded(st, at, other)
               <==> !Hides(st, at, block, other) || Recorded(st, at, other) == [])
  {
    hide SegmentFormat.Lookup, Layout.SegmentIndex;
    var k := KeyOf(at.chain, block, at.size);
    var r := SegmentFormat.Record(block, at.code.encode(entries));
    StoreRefinement.ViewAfterPut(st, k, r, k, block);
    StoreRefinement.ViewAfterPut(st, k, r, KeyOf(at.chain, other, at.size), other);
  }

  /** Somewhere among the first `n` write-backs of a batch, one hides the block's record. */
  predicate WritesHide<R>(was: Store, at: Place, batch: seq<Attempt<R>>, n: nat, other: nat)
    requires at.size > 0 && n <= |batch|
  {
    n > 0
    && (WritesHide(was, at, batch, n - 1, other)
        || (PassOver(was, at, batch[n - 1]).learned
            && Hides(Persisted(was, at, batch, n - 1), at, batch[n - 1].block, other)))
  }

  /** The blocks of a batch are different ones. */
  predicate Apart<R>(batch: seq<Attempt<R>>) {
    forall i, j :: 0 <= i < j < |batch| ==> batch[i].block != batch[j].block
  }

  /**
   * Nothing is learned in a cold-only segment beside the block, its segment is dropped only when the cold
   * copy is current, and a power loss finds no write-back of the block still to be flushed.
   */
  predicate Keeps<R>(st: Store, at: Place, op: CacheOp<R>, block: nat)
    requires at.size > 0
  {
    var k := KeyOf(at.chain, block, at.size);
    match op
    case Digested(batch, n) => n <= |batch| && Apart(batch) && !WritesHide(st, at, batch, n, block)
    case Copied(_) => true
    case Dropped(d) => d == k && k in st.hot ==> k in st.cold && st.cold[k] == st.hot[k]
    case Lost(l, n) => l == k && k in st.hot ==> forall j :: n <= j < |st.hot[k]| ==> st.hot[k][j].number != block
  }

  predicate AllKeep<R>(st: Store, at: Place, ops: seq<CacheOp<R>>, block: nat)
    requires at.size > 0
    decreases |ops|
  {
    ops == [] || (Keeps(st, at, ops[0], block) && AllKeep(AfterOp(st, at, ops[0]), at, ops[1..], block))
  }

  /** A batch leaves under a block what the block's own pass learned, or what was there. */
  lemma {:induction false} OwnPassDecides<R>(was: Store, at: Place, batch: seq<Attempt<R>>, n: nat, i: nat)
    requires PlaceOk(at) && i < n <= |batch| && Apart(batch) && !WritesHide(was, at, batch, n, batch[i].block)
    ensures Recorded(Persisted(was, at, batch, n), at, batch[i].block) == PassOver(was, at, batch[i]).entries
    decreases n
  {
    hide Recorded, Written, Hides;
    var before, last := Persisted(was, at, batch, n - 1), batch[n - 1];
    LearningHidesIff(before, at, last.block, PassOver(was, at, last).entries, batch[i].block);
    if i < n - 1 {
      OwnPassDecides(was, at, batch, n - 1, i);
    } else {
      OthersDoNot(was, at, batch, n - 1, last.block);
      RunGrows(last.h, [], Recorded(was, at, last.block), false, last.node, last.most);
    }
  }

  lemma {:induction false} OthersDoNot<R>(was: Store, at: Place, batch: seq<Attempt<R>>, n: nat, block: nat)
    requires PlaceOk(at) && n <= |batch| && !WritesHide(was, at, batch, n, block)
    requires forall i :: 0 <= i < n ==> batch[i].block != block
    ensures Recorded(Persisted(was, at, batch, n), at, block) == Recorded(was, at, block)
  {
    hide Recorded, Written, Hides;
    if n > 0 {
      var last := batch[n - 1];
      LearningHidesIff(Persisted(was, at, batch, n - 1), at, last.block, PassOver(was, at, last).entries, block);
      OthersDoNot(was, at, batch, n - 1, block);
    }
  }

  lemma OpGrows<R>(st: Store, at: Place, op: CacheOp<R>, block: nat)
    requires PlaceOk(at) && Keeps(st, at, op, block)
    ensures Grows(Recorded(st, at, block), Recorded(AfterOp(st, at, op), at, block))
  {
    if op.Digested? {
      if i: nat :| i < op.n && op.batch[i].block == block {
        var a := op.batch[i];
        OwnPassDecides(st, at, op.batch, op.n, i);
        RunGrows(a.h, [], Recorded(st, at, block), false, a.node, a.most);
      } else {
        OthersDoNot(st, at, op.batch, op.n, block);
      }
    } else {
      if op.Lost? && op.k in st.hot && op.n <= |st.hot[op.k]| && op.k == KeyOf(at.chain, block, at.size) {
        LookupInFirst(st.hot[op.k], op.n, block);
      }
      hide SegmentFormat.Lookup, Layout.SegmentIndex;
    }
  }

  lemma {:induction false} LookupInFirst(log: SegmentFormat.Log, n: nat, number: nat)
    requires n <= |log| && forall j :: n <= j < |log| ==> log[j].number != number
    ensures SegmentFormat.Lookup(log[..n], number) == SegmentFormat.Lookup(log, number)
    decreases |log|
  {
    if n == |log| {
      assert log[..n] == log;
    } else {
      assert SegmentFormat.Front(log)[..n] == log[..n];
      LookupInFirst(SegmentFormat.Front(log), n, number);
    }
  }

  /**
   * Digesting any blocks, in any batches, tiering and power losses only add to a block's archive, as
   * long as nothing is learned in a cold-only segment beside it and what was learned of it is flushed.
   */
  lemma {:induction false} PassesOnlyGrow<R>(st: Store, at: Place, ops: seq<CacheOp<R>>, block: nat)
    requires PlaceOk(at) && AllKeep(st, at, ops, block)
    ensures Grows(Recorded(st, at, block), Recorded(AfterOps(st, at, ops), at, block))
    decreases |ops|
  {
    hide Recorded, AfterOp, Keeps;
    if ops != [] {
      OpGrows(st, at, ops[0], block);
      PassesOnlyGrow(AfterOp(st, at, ops[0]), at, ops[1..], block);
    }
  }

  /**
   * A pass whose batch committed and that was written back replays with no node after any later
   * digests, tiering and power losses that keep its record: the same answers, the same result, nothing learned.
   */
  lemma ReplaysAfterAnything<R>(st: Store, at: Place, batch: seq<Attempt<R>>, n: nat, i: nat, later: seq<CacheOp<R>>)
    requires PlaceOk(at) && i < n <= |batch| && AllFinish(st, at, batch)
    requires AllKeep(st, at, [Digested(batch, n)] + later, batch[i].block)
    ensures var a := batch[i];
            var archived := AfterOps(st, at, [Digested(batch, n)] + later);
            var live, replay := PassOver(st, at, a), PassOver(archived, at, a.(node := None));
            replay.outcome == live.outcome && replay.answers == live.answers && !replay.learned
  {
    hide Recorded, WritesHide, Persisted;
    var a, ops := batch[i], [Digested(batch, n)] + later;
    assert ops[1..] == later;
    var committed := AfterOp(st, at, ops[0]);
    OwnPassDecides(st, at, batch, n, i);
    PassesOnlyGrow(committed, at, later, a.block);
    OfflineReplays(a.h, [], Recorded(st, at, a.block), false, a.node, a.most,
                   Recorded(AfterOps(committed, at, later), at, a.block), None);
  }
}
