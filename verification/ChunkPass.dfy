// One pass over the queue of oplog chunk copies (internal/copies/chunks.go): a cursor moves
// through the due chunks in batches while attempts, other processes and the clock change
// which copies are due.
module ChunkPass {
  import opened Ordering

  datatype Chunk = Chunk(created: int, id: string)

  datatype Cursor = Start | At(chunk: Chunk)

  type Key = (string, string)

  const BATCH := 100
  const BATCHES := 50

  /** a comes before b in the queue. */
  predicate Earlier(a: Chunk, b: Chunk) { a.created < b.created || (a.created == b.created && Less(a.id, b.id)) }

  predicate Beyond(cur: Cursor, c: Chunk) { cur.Start? || Earlier(cur.chunk, c) }

  /** A listing in the order of the queue. */
  predicate InOrder(list: seq<Chunk>) { forall i, j :: 0 <= i < j < |list| ==> Earlier(list[i], list[j]) }

  /**
   * What the store answers to each batch b: the due chunks in order, the copy targets of a chunk,
   * whether a copy is due when it is reached, and whether a listing fails.
   */
  datatype Store = Store(dueChunks: nat -> seq<Chunk>, targets: (nat, Chunk) -> seq<string>, due: (nat, Key) -> bool, fails: nat -> bool)

  ghost predicate Ordered(st: Store) { forall b :: InOrder(st.dueChunks(b)) }

  /** The chunks of list beyond the cursor. */
  function Rest(list: seq<Chunk>, cur: Cursor): seq<Chunk> {
    if list == [] then [] else Rest(list[..|list| - 1], cur) + if Beyond(cur, list[|list| - 1]) then [list[|list| - 1]] else []
  }

  /** DueChunkCopies. */
  function Query(list: seq<Chunk>, cur: Cursor): seq<Chunk> {
    var rest := Rest(list, cur);
    if |rest| <= BATCH then rest else rest[..BATCH]
  }

  // ---- The pass ----

  /** The copies tried after one more was looked at: log lists those tried so far in this pass. */
  function TryOne(st: Store, b: nat, key: Key, log: seq<Key>): seq<Key> { if key in log || !st.due(b, key) then log else log + [key] }

  function TryTargets(st: Store, b: nat, c: Chunk, targets: seq<string>, log: seq<Key>): seq<Key> {
    if targets == [] then log else TryOne(st, b, (c.id, targets[|targets| - 1]), TryTargets(st, b, c, targets[..|targets| - 1], log))
  }

  function TryChunks(st: Store, b: nat, chunks: seq<Chunk>, log: seq<Key>): seq<Key> {
    if chunks == [] then log
    else
      var c := chunks[|chunks| - 1];
      TryTargets(st, b, c, st.targets(b, c), TryChunks(st, b, chunks[..|chunks| - 1], log))
  }

  /** The copies tried from batch b on. */
  function Pass(st: Store, b: nat, cur: Cursor, log: seq<Key>): seq<Key>
    requires b <= BATCHES
    decreases BATCHES - b
  {
    if b == BATCHES || st.fails(b) then log
    else
      var chunks := Query(st.dueChunks(b), cur);
      var log' := TryChunks(st, b, chunks, log);
      if |chunks| < BATCH then log' else Pass(st, b + 1, At(chunks[|chunks| - 1]), log')
  }

  /** The loop of runChunks over the queue. */
  method RunChunks(st: Store) returns (log: seq<Key>)
    ensures log == Pass(st, 0, Start, [])
  {
    log := [];
    var cur, tried, b := Start, {}, 0;
    while b < BATCHES
      invariant b <= BATCHES && (forall k :: k in tried <==> k in log)
      invariant Pass(st, 0, Start, []) == Pass(st, b, cur, log)
      decreases BATCHES - b
    {
      if st.fails(b) { return; }
      var chunks := Query(st.dueChunks(b), cur);
      ghost var before := log;
      for i := 0 to |chunks|
        invariant log == TryChunks(st, b, chunks[..i], before) && (forall k :: k in tried <==> k in log)
      {
        assert chunks[..i + 1][..i] == chunks[..i];
        var targets := st.targets(b, chunks[i]);
        ghost var middle := log;
        for j := 0 to |targets|
          invariant log == TryTargets(st, b, chunks[i], targets[..j], middle) && (forall k :: k in tried <==> k in log)
        {
          assert targets[..j + 1][..j] == targets[..j];
          var key := (chunks[i].id, targets[j]);
          if key in tried || !st.due(b, key) { continue; }
          tried := tried + {key};
          log := log + [key];
        }
        assert targets[..|targets|] == targets;
      }
      assert chunks[..|chunks|] == chunks;
      if |chunks| < BATCH { return; }
      cur := At(chunks[|chunks| - 1]);
      b := b + 1;
    }
  }

  // ---- Each copy at most once ----

  predicate Once(log: seq<Key>) { forall i, j :: 0 <= i < j < |log| ==> log[i] != log[j] }

  lemma {:induction false} TargetsOnce(st: Store, b: nat, c: Chunk, targets: seq<string>, log: seq<Key>)
    requires Once(log)
    ensures Once(TryTargets(st, b, c, targets, log)) && log <= TryTargets(st, b, c, targets, log)
  {
    if targets != [] { TargetsOnce(st, b, c, targets[..|targets| - 1], log); }
  }

  lemma {:induction false} ChunksOnce(st: Store, b: nat, chunks: seq<Chunk>, log: seq<Key>)
    requires Once(log)
    ensures Once(TryChunks(st, b, chunks, log)) && log <= TryChunks(st, b, chunks, log)
  {
    if chunks != [] {
      var c := chunks[|chunks| - 1];
      ChunksOnce(st, b, chunks[..|chunks| - 1], log);
      TargetsOnce(st, b, c, st.targets(b, c), TryChunks(st, b, chunks[..|chunks| - 1], log));
    }
  }

  /** No copy is tried twice in a pass, however often it becomes due again, and nothing tried is undone. */
  lemma {:induction false} TriedOnce(st: Store, b: nat, cur: Cursor, log: seq<Key>)
    requires b <= BATCHES && Once(log)
    ensures Once(Pass(st, b, cur, log)) && log <= Pass(st, b, cur, log)
    decreases BATCHES - b
  {
    if b < BATCHES && !st.fails(b) {
      var chunks := Query(st.dueChunks(b), cur);
      ChunksOnce(st, b, chunks, log);
      if |chunks| >= BATCH { TriedOnce(st, b + 1, At(chunks[|chunks| - 1]), TryChunks(st, b, chunks, log)); }
    }
  }

  // ---- Every copy that stays due is reached ----

  lemma EarlierTransitive(a: Chunk, b: Chunk, c: Chunk)
    requires Earlier(a, b) && Earlier(b, c)
    ensures Earlier(a, c)
  {
    if a.created == b.created == c.created { LessTransitive(a.id, b.id, c.id); }
  }

  lemma EarlierIrreflexive(a: Chunk)
    ensures !Earlier(a, a)
  {
    LessIrreflexive(a.id);
  }

  lemma {:induction false} RestIn(list: seq<Chunk>, cur: Cursor, c: Chunk)
    ensures c in Rest(list, cur) <==> c in list && Beyond(cur, c)
  {
    if list != [] {
      RestIn(list[..|list| - 1], cur, c);
      assert list == list[..|list| - 1] + [list[|list| - 1]];
    }
  }

  lemma {:induction false} RestOrder(list: seq<Chunk>, cur: Cursor)
    requires InOrder(list)
    ensures InOrder(Rest(list, cur))
  {
    if list != [] {
      var init, last := list[..|list| - 1], list[|list| - 1];
      RestOrder(init, cur);
      forall i | 0 <= i < |Rest(init, cur)|
        ensures Earlier(Rest(init, cur)[i], last)
      {
        RestIn(init, cur, Rest(init, cur)[i]);
      }
    }
  }

  /** A due chunk beyond the cursor is in the batch, or beyond the next cursor. */
  lemma BatchMisses(list: seq<Chunk>, cur: Cursor, c: Chunk)
    requires InOrder(list) && c in list && Beyond(cur, c)
    ensures var batch := Query(list, cur);
            c in batch || (|batch| == BATCH && Beyond(At(batch[|batch| - 1]), c))
  {
    RestIn(list, cur, c);
    RestOrder(list, cur);
    var rest := Rest(list, cur);
    var i :| 0 <= i < |rest| && rest[i] == c;
    if i < BATCH { assert Query(list, cur)[i] == c; }
  }

  /** The chunks of a set beyond a cursor. */
  function Ahead(all: set<Chunk>, cur: Cursor): set<Chunk> { set c | c in all && Beyond(cur, c) }

  function Members(s: seq<Chunk>): set<Chunk> { set c | c in s }

  lemma MembersSplit(init: seq<Chunk>, last: Chunk)
    ensures Members(init + [last]) == Members(init) + {last}
  {
  }

  lemma LastIsNew(s: seq<Chunk>)
    requires InOrder(s) && s != []
    ensures s[|s| - 1] !in s[..|s| - 1]
  {
    EarlierIrreflexive(s[|s| - 1]);
  }

  lemma {:induction false} MembersSize(s: seq<Chunk>)
    requires InOrder(s)
    ensures |Members(s)| == |s|
  {
    if s != [] {
      var init, last := s[..|s| - 1], s[|s| - 1];
      MembersSize(init);
      LastIsNew(s);
      MembersSplit(init, last);
      assert s == init + [last];
    }
  }

  /** A full batch leaves at least a batch fewer chunks ahead of the cursor. */
  lemma FullBatchAdvances(all: set<Chunk>, list: seq<Chunk>, cur: Cursor)
    requires InOrder(list) && (forall c :: c in list ==> c in all) && |Query(list, cur)| == BATCH
    ensures |Ahead(all, At(Query(list, cur)[BATCH - 1]))| + BATCH <= |Ahead(all, cur)|
  {
    var batch := Query(list, cur);
    var last := batch[BATCH - 1];
    RestOrder(list, cur);
    forall c | c in batch
      ensures c in Ahead(all, cur) && c !in Ahead(all, At(last))
    {
      RestIn(list, cur, c);
      NotBeyondLast(batch, c);
    }
    RestIn(list, cur, last);
    forall c | c in Ahead(all, At(last))
      ensures c in Ahead(all, cur)
    {
      if cur.At? { EarlierTransitive(cur.chunk, last, c); }
    }
    MembersSize(batch);
    var both := Members(batch) + Ahead(all, At(last));
    assert both <= Ahead(all, cur);
    SubsetSize(both, Ahead(all, cur));
    assert |both| == |Members(batch)| + |Ahead(all, At(last))|;
  }

  lemma NotBeyondLast(batch: seq<Chunk>, c: Chunk)
    requires InOrder(batch) && c in batch
    ensures !Beyond(At(batch[|batch| - 1]), c)
  {
    var last := batch[|batch| - 1];
    var i :| 0 <= i < |batch| && batch[i] == c;
    EarlierIrreflexive(c);
    if i < |batch| - 1 && Earlier(last, c) { EarlierTransitive(c, last, c); }
  }

  lemma {:induction false} SubsetSize(a: set<Chunk>, b: set<Chunk>)
    requires a <= b
    ensures |a| <= |b|
    decreases a
  {
    if a != {} {
      var x :| x in a;
      SubsetSize(a - {x}, b - {x});
    }
  }

  /** The chunk is in a batch that the pass loads from b on, in the batch numbered at. */
  ghost predicate Reached(st: Store, b: nat, cur: Cursor, c: Chunk, at: nat)
    requires b <= BATCHES
    decreases BATCHES - b
  {
    && b < BATCHES && !st.fails(b)
    && var chunks := Query(st.dueChunks(b), cur);
       (c in chunks && at == b) || (|chunks| == BATCH && Reached(st, b + 1, At(chunks[BATCH - 1]), c, at))
  }

  /**
   * From batch b on the listings work and the chunk is due in each one, up to the batch that loads
   * it: whether it is due after that does not matter.
   */
  ghost predicate DueUntilReached(st: Store, b: nat, cur: Cursor, c: Chunk)
    requires b <= BATCHES
    decreases BATCHES - b
  {
    b < BATCHES ==>
      && !st.fails(b) && c in st.dueChunks(b)
      && var chunks := Query(st.dueChunks(b), cur);
         c !in chunks && |chunks| == BATCH ==> DueUntilReached(st, b + 1, At(chunks[BATCH - 1]), c)
  }

  /**
   * With fewer chunks due during the pass than it may load, every chunk that stays due until it is
   * reached is reached: the cursor passes over none.
   */
  lemma {:induction false} StillDueIsReached(st: Store, all: set<Chunk>, b: nat, cur: Cursor, c: Chunk) returns (at: nat)
    requires Ordered(st) && b <= BATCHES && DueUntilReached(st, b, cur, c) && Beyond(cur, c)
    requires forall n, x :: x in st.dueChunks(n) ==> x in all
    requires |Ahead(all, cur)| < (BATCHES - b) * BATCH
    ensures Reached(st, b, cur, c, at)
    decreases BATCHES - b
  {
    var list := st.dueChunks(b);
    var batch := Query(list, cur);
    BatchMisses(list, cur, c);
    if c in batch {
      at := b;
    } else {
      FullBatchAdvances(all, list, cur);
      at := StillDueIsReached(st, all, b + 1, At(batch[BATCH - 1]), c);
    }
  }

  // ---- ... and tried ----

  lemma {:induction false} TargetTried(st: Store, b: nat, c: Chunk, targets: seq<string>, log: seq<Key>, t: string)
    requires t in targets && st.due(b, (c.id, t))
    ensures (c.id, t) in TryTargets(st, b, c, targets, log)
  {
    var init := targets[..|targets| - 1];
    if t != targets[|targets| - 1] {
      assert targets == init + [targets[|targets| - 1]];
      TargetTried(st, b, c, init, log, t);
    }
  }

  lemma {:induction false} ChunkTried(st: Store, b: nat, chunks: seq<Chunk>, log: seq<Key>, c: Chunk, t: string)
    requires Once(log) && c in chunks && t in st.targets(b, c) && st.due(b, (c.id, t))
    ensures (c.id, t) in TryChunks(st, b, chunks, log)
  {
    var init, last := chunks[..|chunks| - 1], chunks[|chunks| - 1];
    ChunksOnce(st, b, init, log);
    TargetsOnce(st, b, last, st.targets(b, last), TryChunks(st, b, init, log));
    if c == last {
      TargetTried(st, b, c, st.targets(b, c), TryChunks(st, b, init, log), t);
    } else {
      assert chunks == init + [last];
      ChunkTried(st, b, init, log, c, t);
    }
  }

  lemma {:induction false} ReachedIsTried(st: Store, b: nat, cur: Cursor, log: seq<Key>, c: Chunk, at: nat, t: string)
    requires b <= BATCHES && Once(log) && Reached(st, b, cur, c, at) && t in st.targets(at, c) && st.due(at, (c.id, t))
    ensures (c.id, t) in Pass(st, b, cur, log)
    decreases BATCHES - b
  {
    var chunks := Query(st.dueChunks(b), cur);
    var log' := TryChunks(st, b, chunks, log);
    ChunksOnce(st, b, chunks, log);
    if c in chunks && at == b {
      ChunkTried(st, b, chunks, log, c, t);
      if |chunks| == BATCH { TriedOnce(st, b + 1, At(chunks[BATCH - 1]), log'); }
    } else {
      ReachedIsTried(st, b + 1, At(chunks[BATCH - 1]), log', c, at, t);
    }
  }

  /**
   * A pass refines the simple loop over the due copies: each copy is tried at most once, and with
   * fewer than 50 batches of 100 chunks due meanwhile, each copy of a chunk that stays due until it
   * is reached is tried if it is due then.
   */
  lemma PassTriesAll(st: Store, all: set<Chunk>, c: Chunk) returns (at: nat)
    requires Ordered(st) && DueUntilReached(st, 0, Start, c)
    requires (forall n, x :: x in st.dueChunks(n) ==> x in all) && |all| < BATCHES * BATCH
    ensures Once(Pass(st, 0, Start, [])) && Reached(st, 0, Start, c, at)
    ensures forall t :: t in st.targets(at, c) && st.due(at, (c.id, t)) ==> (c.id, t) in Pass(st, 0, Start, [])
  {
    assert Ahead(all, Start) == all;
    at := StillDueIsReached(st, all, 0, Start, c);
    TriedOnce(st, 0, Start, []);
    forall t | t in st.targets(at, c) && st.due(at, (c.id, t))
      ensures (c.id, t) in Pass(st, 0, Start, [])
    {
      ReachedIsTried(st, 0, Start, [], c, at, t);
    }
  }
}
