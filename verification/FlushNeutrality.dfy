/** Flushing in the middle of a modification changes nothing once the modification is committed. */
module FlushNeutrality {
  import opened Keys
  import opened KeyLayout
  import opened Snapshots
  import opened Timelines
  import opened Modifications
  import opened PostgresFfi

  /** Reads of committed data stay at or below the last record. */
  predicate Fits(s: State, op: Op) {
    op.ReadSize? ==> op.lsn <= s.tl.lastLsn
  }

  /** s and f are about to commit the same, though f may have written some of it already. */
  predicate Alike(s: State, f: State) {
    && f.tl.lastLsn == s.tl.lastLsn < s.m.lsn == f.m.lsn
    && f.tl.cache == s.tl.cache && f.tl.deleted == s.tl.deleted && f.m.deletions == s.m.deletions
    && f.tl.logicalSize + f.m.nblocks * BLCKSZ == s.tl.logicalSize + s.m.nblocks * BLCKSZ
    && Pending(f) == Pending(s)
  }

  lemma AlikeView(s: State, f: State, key: Key)
    requires Alike(s, f)
    ensures View(f, key) == View(s, key)
  {
    ViewIsPending(s, key);
    ViewIsPending(f, key);
  }

  lemma AlikeBelow(s: State, f: State, key: Key, lsn: Lsn)
    requires Alike(s, f) && lsn <= s.tl.lastLsn
    ensures Get(f.tl.store, key, lsn) == Get(s.tl.store, key, lsn)
  {
    GetBelowWritten(s.tl.store, s.m.updates, s.m.lsn, key, lsn);
    GetBelowWritten(f.tl.store, f.m.updates, f.m.lsn, key, lsn);
  }

  lemma SameReads(a: Store, b: Store, cache: Cache, rel: RelTag, lsn: Lsn, latest: bool)
    requires Get(a, DirKey(DbOf(rel)), lsn) == Get(b, DirKey(DbOf(rel)), lsn)
    requires Get(a, RelSizeToKey(rel), lsn) == Get(b, RelSizeToKey(rel), lsn)
    ensures RelsOf(At(b, lsn), DbOf(rel)) == RelsOf(At(a, lsn), DbOf(rel))
    ensures RelExists(b, cache, rel, lsn) == RelExists(a, cache, rel, lsn)
    ensures GetRelSize(b, cache, rel, lsn, latest) == GetRelSize(a, cache, rel, lsn, latest)
  {
  }

  lemma AlikeReads(s: State, f: State, cache: Cache, rel: RelTag, lsn: Lsn, latest: bool)
    requires Alike(s, f) && lsn <= s.tl.lastLsn
    ensures RelsOf(At(f.tl.store, lsn), DbOf(rel)) == RelsOf(At(s.tl.store, lsn), DbOf(rel))
    ensures RelExists(f.tl.store, cache, rel, lsn) == RelExists(s.tl.store, cache, rel, lsn)
    ensures GetRelSize(f.tl.store, cache, rel, lsn, latest) == GetRelSize(s.tl.store, cache, rel, lsn, latest)
  {
    AlikeBelow(s, f, DirKey(DbOf(rel)), lsn);
    AlikeBelow(s, f, RelSizeToKey(rel), lsn);
    SameReads(s.tl.store, f.tl.store, cache, rel, lsn, latest);
  }

  lemma {:induction false} AlikeSums(s: State, f: State, cache: Cache, order: seq<RelTag>, lsn: Lsn)
    requires Alike(s, f) && lsn <= s.tl.lastLsn
    ensures SumRelSizes(f.tl.store, cache, order, lsn) == SumRelSizes(s.tl.store, cache, order, lsn)
    decreases |order|
  {
    if order != [] {
      AlikeSums(s, f, cache, order[..|order| - 1], lsn);
      var (_, cache1) := SumRelSizes(s.tl.store, cache, order[..|order| - 1], lsn);
      AlikeReads(s, f, cache1, order[|order| - 1], lsn, true);
    }
  }

  lemma AlikePlans(s: State, f: State, op: Op)
    requires Alike(s, f) && Fits(s, op)
    ensures PlanOf(f, op) == PlanOf(s, op)
  {
    AlikeView(s, f, DBDIR_KEY);
    if op.DropDb? {
      AlikeReads(s, f, s.tl.cache, Rel(op.db, (0, 0)), s.tl.lastLsn, true);
      AlikeSums(s, f, s.tl.cache, op.order, s.tl.lastLsn);
    } else if !op.PutSlruPage? && !op.PutRelmap? {
      AlikeView(s, f, DirKey(DbOf(op.rel)));
      AlikeView(s, f, RelSizeToKey(op.rel));
      if op.ReadSize? {
        AlikeReads(s, f, s.tl.cache, op.rel, op.lsn, op.latest);
      } else {
        AlikeReads(s, f, s.tl.cache, op.rel, s.tl.lastLsn, true);
      }
    }
  }

  lemma StampedTwice(a: map<Key, Val>, b: map<Key, Val>, lsn: Lsn)
    ensures Stamped(a + b, lsn) == Stamped(a, lsn) + Stamped(b, lsn)
  {
  }

  lemma OneOverTheOther(store: Store, a: Store, b: Store)
    ensures store + (a + b) == (store + a) + b
  {
  }

  lemma WrittenTwice(store: Store, a: map<Key, Val>, b: map<Key, Val>, lsn: Lsn)
    ensures Written(store, a + b, lsn) == Written(Written(store, a, lsn), b, lsn)
  {
    StampedTwice(a, b, lsn);
    OneOverTheOther(store, Stamped(a, lsn), Stamped(b, lsn));
  }

  /** An operation does the same to both, down to its error. */
  lemma PerformAlike(s: State, f: State, op: Op)
    requires Alike(s, f) && Fits(s, op)
    ensures PlanOf(f, op) == PlanOf(s, op) && Alike(Perform(s, op), Perform(f, op))
  {
    AlikePlans(s, f, op);
    var plan := PlanOf(s, op);
    WrittenTwice(s.tl.store, s.m.updates, plan.puts, s.m.lsn);
    WrittenTwice(f.tl.store, f.m.updates, plan.puts, f.m.lsn);
  }

  lemma FlushAlike(s: State, f: State)
    requires Alike(s, f)
    ensures Alike(s, Flush(f))
  {
    if f.m.nblocks >= FLUSH_THRESHOLD {
      var blocks := Blocks(f.m.updates);
      var rest := f.m.updates - blocks.Keys;
      WrittenTwice(f.tl.store, blocks, rest, f.m.lsn);
      assert blocks + rest == f.m.updates;
    }
  }

  lemma CommitAlike(s: State, f: State)
    requires Alike(s, f)
    ensures Commit(f) == Commit(s)
  {
  }

  // --- a modification with flushes in it

  datatype Move = Do(op: Op) | FlushNow

  function RunMoves(s: State, moves: seq<Move>): State {
    if moves == [] then s
    else
      var before := RunMoves(s, moves[..|moves| - 1]);
      match moves[|moves| - 1]
      case Do(op) => Perform(before, op)
      case FlushNow => Flush(before)
  }

  /** The same moves with the flushes taken out. */
  function WithoutFlushes(moves: seq<Move>): seq<Move> {
    if moves == [] then []
    else
      var before := WithoutFlushes(moves[..|moves| - 1]);
      if moves[|moves| - 1].FlushNow? then before else before + [moves[|moves| - 1]]
  }

  predicate AllFit(s: State, moves: seq<Move>) {
    forall i :: 0 <= i < |moves| && moves[i].Do? ==> Fits(s, moves[i].op)
  }

  lemma {:induction false} RunsStayAlike(s: State, moves: seq<Move>)
    requires s.tl.lastLsn < s.m.lsn && AllFit(s, moves)
    ensures Alike(RunMoves(s, WithoutFlushes(moves)), RunMoves(s, moves))
    ensures RunMoves(s, moves).tl.lastLsn == s.tl.lastLsn
    decreases |moves|
  {
    if moves != [] {
      var before, last := moves[..|moves| - 1], moves[|moves| - 1];
      RunsStayAlike(s, before);
      var plain, flushed := RunMoves(s, WithoutFlushes(before)), RunMoves(s, before);
      if last.FlushNow? {
        FlushAlike(plain, flushed);
      } else {
        PerformAlike(plain, flushed, last.op);
        assert WithoutFlushes(moves)[..|WithoutFlushes(moves)| - 1] == WithoutFlushes(before);
      }
    }
  }

  /** Wherever flushes are put among the operations, the committed timeline is the same: every version
      of every key, the size cache, the logical size. */
  lemma FlushesAreNeutral(s: State, moves: seq<Move>)
    requires s.tl.lastLsn < s.m.lsn && AllFit(s, moves)
    ensures Commit(RunMoves(s, moves)) == Commit(RunMoves(s, WithoutFlushes(moves)))
  {
    RunsStayAlike(s, moves);
    CommitAlike(RunMoves(s, WithoutFlushes(moves)), RunMoves(s, moves));
  }
}
