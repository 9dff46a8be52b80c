/** What the server's locking and caching guarantee, for any number of threads and every run. */
module ServerTheorems {
  import opened Wrappers
  import opened Tally
  import opened Packet
  import opened Cache
  import opened Server
  import PS = PathSearch

  lemma HandlerMoves(hs: seq<Handler>, t: nat, h: Handler)
    requires t < |hs|
    ensures Total(InReadMutex(), hs[t := h]) == Total(InReadMutex(), hs) - InReadMutex()(hs[t]) + InReadMutex()(h)
    ensures Total(Entering(), hs[t := h]) == Total(Entering(), hs) - Entering()(hs[t]) + Entering()(h)
    ensures Total(Readers(), hs[t := h]) == Total(Readers(), hs) - Readers()(hs[t]) + Readers()(h)
    ensures Total(InWriteMutex(), hs[t := h]) == Total(InWriteMutex(), hs) - InWriteMutex()(hs[t]) + InWriteMutex()(h)
    ensures Total(Writers(), hs[t := h]) == Total(Writers(), hs) - Writers()(hs[t]) + Writers()(h)
    ensures Total(WithCache(), hs[t := h]) == Total(WithCache(), hs) - WithCache()(hs[t]) + WithCache()(h)
    ensures Total(InGraph(), hs[t := h]) == Total(InGraph(), hs) - InGraph()(hs[t]) + InGraph()(h)
    ensures Total(FirstIn(), hs[t := h]) == Total(FirstIn(), hs) - FirstIn()(hs[t]) + FirstIn()(h)
    ensures Total(LastOut(), hs[t := h]) == Total(LastOut(), hs) - LastOut()(hs[t]) + LastOut()(h)
    ensures Total(FirstWrites(), hs[t := h]) == Total(FirstWrites(), hs) - FirstWrites()(hs[t]) + FirstWrites()(h)
    ensures Total(LastWrites(), hs[t := h]) == Total(LastWrites(), hs) - LastWrites()(hs[t]) + LastWrites()(h)
  {
    TotalUpdate(InReadMutex(), hs, t, h);
    TotalUpdate(Entering(), hs, t, h);
    TotalUpdate(Readers(), hs, t, h);
    TotalUpdate(InWriteMutex(), hs, t, h);
    TotalUpdate(Writers(), hs, t, h);
    TotalUpdate(WithCache(), hs, t, h);
    TotalUpdate(InGraph(), hs, t, h);
    TotalUpdate(FirstIn(), hs, t, h);
    TotalUpdate(LastOut(), hs, t, h);
    TotalUpdate(FirstWrites(), hs, t, h);
    TotalUpdate(LastWrites(), hs, t, h);
  }

  /** Thread t is one of those it is counted among, and nobody is counted negatively. */
  lemma Counted(s: State, t: nat)
    requires t < |s.handlers|
    ensures InReadMutex()(s.handlers[t]) <= Count(s, InReadMutex())
    ensures Entering()(s.handlers[t]) <= Count(s, Entering())
    ensures Readers()(s.handlers[t]) <= Count(s, Readers())
    ensures InWriteMutex()(s.handlers[t]) <= Count(s, InWriteMutex())
    ensures Writers()(s.handlers[t]) <= Count(s, Writers())
    ensures WithCache()(s.handlers[t]) <= Count(s, WithCache())
    ensures FirstIn()(s.handlers[t]) <= Count(s, FirstIn()) && LastOut()(s.handlers[t]) <= Count(s, LastOut())
    ensures FirstWrites()(s.handlers[t]) <= Count(s, FirstWrites())
    ensures LastWrites()(s.handlers[t]) <= Count(s, LastWrites())
  {
    TotalCovers(InReadMutex(), s.handlers, t, t);
    TotalCovers(Entering(), s.handlers, t, t);
    TotalCovers(Readers(), s.handlers, t, t);
    TotalCovers(InWriteMutex(), s.handlers, t, t);
    TotalCovers(Writers(), s.handlers, t, t);
    TotalCovers(WithCache(), s.handlers, t, t);
    TotalCovers(FirstIn(), s.handlers, t, t);
    TotalCovers(LastOut(), s.handlers, t, t);
    TotalCovers(FirstWrites(), s.handlers, t, t);
    TotalCovers(LastWrites(), s.handlers, t, t);
  }

  /** Mutual exclusion bounds: first and last ones are inside the mutex of their group. */
  lemma Nested(s: State)
    ensures 0 <= Count(s, FirstIn()) && 0 <= Count(s, LastOut())
    ensures 0 <= Count(s, FirstWrites()) && 0 <= Count(s, LastWrites())
    ensures Count(s, FirstIn()) + Count(s, LastOut()) <= Count(s, InReadMutex())
    ensures Count(s, FirstWrites()) + Count(s, LastWrites()) <= Count(s, InWriteMutex())
    ensures Count(s, FirstIn()) <= Count(s, Entering()) && Count(s, WithCache()) <= Count(s, Writers())
    ensures 0 <= Count(s, Entering()) && 0 <= Count(s, WithCache())
    ensures 0 <= Count(s, Readers()) && 0 <= Count(s, Writers())
    ensures 0 <= Count(s, InGraph())
  {
    NestedIn(s.handlers);
  }

  lemma {:induction false} NestedIn(hs: seq<Handler>)
    ensures 0 <= Total(FirstIn(), hs) && 0 <= Total(LastOut(), hs)
    ensures 0 <= Total(FirstWrites(), hs) && 0 <= Total(LastWrites(), hs)
    ensures Total(FirstIn(), hs) + Total(LastOut(), hs) <= Total(InReadMutex(), hs)
    ensures Total(FirstWrites(), hs) + Total(LastWrites(), hs) <= Total(InWriteMutex(), hs)
    ensures Total(FirstIn(), hs) <= Total(Entering(), hs) && Total(WithCache(), hs) <= Total(Writers(), hs)
    ensures 0 <= Total(Entering(), hs) && 0 <= Total(WithCache(), hs)
    ensures 0 <= Total(Readers(), hs) && 0 <= Total(Writers(), hs) && 0 <= Total(InGraph(), hs)
  {
    if hs != [] { NestedIn(hs[1..]); }
  }

  /** Thread t's own share of the inclusions above. */
  lemma {:induction false} NestedAt(hs: seq<Handler>, t: nat)
    requires t < |hs|
    ensures Total(FirstIn(), hs) + Total(LastOut(), hs) + InReadMutex()(hs[t]) - FirstIn()(hs[t]) - LastOut()(hs[t])
         <= Total(InReadMutex(), hs)
    ensures Total(FirstWrites(), hs) + Total(LastWrites(), hs)
            + InWriteMutex()(hs[t]) - FirstWrites()(hs[t]) - LastWrites()(hs[t]) <= Total(InWriteMutex(), hs)
    ensures Total(WithCache(), hs) + Writers()(hs[t]) - WithCache()(hs[t]) <= Total(Writers(), hs)
  {
    if t == 0 {
      NestedIn(hs[1..]);
    } else {
      NestedIn(hs[..1]);
      NestedAt(hs[1..], t - 1);
    }
  }

  // ---------------------------------------------------------------- the locks

  predicate EnteringStep(at: At) {
    at.TryRead? || at.LockRead? || at.CountIn? || at.FirstReader?
  }

  predicate ReadingStep(at: At) {
    at.UnlockRead? || at.ReleaseTry? || at.Reading? || at.LockLeave? || at.CountOut?
  }

  predicate SearchingStep(at: At) {
    at.LastReader? || at.UnlockLeave? || at.AwaitGraph? || at.Computing? || at.ReleaseGraph?
  }

  predicate QueueingStep(at: At) {
    at.LockWrite? || at.CountWriter? || at.FirstWriter? || at.UnlockWrite? || at.AwaitCache?
  }

  predicate StoringStep(at: At) {
    at.Writing? || at.ReleaseCache? || at.LockDone? || at.CountDone?
  }

  predicate FinishingStep(at: At) {
    at.LastWriter? || at.UnlockDone? || at.Responding?
  }

  lemma EnteringKeepsLocks(g: seq<PS.Adjacency>, s: State, t: nat)
    requires PS.Closed(g) && LocksInv(s) && Enabled(g, s, Step(t)) && EnteringStep(s.handlers[t].at)
    ensures LocksInv(Exec(g, s, Step(t)))
  {
    hide Total, AnswerFor, Lookup;
    Counted(s, t);
    Nested(s);
    NestedAt(s.handlers, t);
    HandlerMoves(s.handlers, t, Exec(g, s, Step(t)).handlers[t]);
  }

  lemma ReadingKeepsLocks(g: seq<PS.Adjacency>, s: State, t: nat)
    requires PS.Closed(g) && LocksInv(s) && Enabled(g, s, Step(t)) && ReadingStep(s.handlers[t].at)
    ensures LocksInv(Exec(g, s, Step(t)))
  {
    hide Total, AnswerFor, Lookup;
    Counted(s, t);
    Nested(s);
    NestedAt(s.handlers, t);
    HandlerMoves(s.handlers, t, Exec(g, s, Step(t)).handlers[t]);
  }

  lemma SearchingKeepsLocks(g: seq<PS.Adjacency>, s: State, t: nat)
    requires PS.Closed(g) && LocksInv(s) && Enabled(g, s, Step(t)) && SearchingStep(s.handlers[t].at)
    ensures LocksInv(Exec(g, s, Step(t)))
  {
    hide Total, AnswerFor, Lookup;
    Counted(s, t);
    Nested(s);
    NestedAt(s.handlers, t);
    HandlerMoves(s.handlers, t, Exec(g, s, Step(t)).handlers[t]);
  }

  lemma QueueingKeepsLocks(g: seq<PS.Adjacency>, s: State, t: nat)
    requires PS.Closed(g) && LocksInv(s) && Enabled(g, s, Step(t)) && QueueingStep(s.handlers[t].at)
    ensures LocksInv(Exec(g, s, Step(t)))
  {
    hide Total, AnswerFor, Lookup;
    Counted(s, t);
    Nested(s);
    NestedAt(s.handlers, t);
    HandlerMoves(s.handlers, t, Exec(g, s, Step(t)).handlers[t]);
  }

  lemma StoringKeepsLocks(g: seq<PS.Adjacency>, s: State, t: nat)
    requires PS.Closed(g) && LocksInv(s) && Enabled(g, s, Step(t)) && StoringStep(s.handlers[t].at)
    ensures LocksInv(Exec(g, s, Step(t)))
  {
    hide Total, AnswerFor, Lookup;
    Counted(s, t);
    Nested(s);
    NestedAt(s.handlers, t);
    HandlerMoves(s.handlers, t, Exec(g, s, Step(t)).handlers[t]);
  }

  lemma FinishingKeepsLocks(g: seq<PS.Adjacency>, s: State, t: nat)
    requires PS.Closed(g) && LocksInv(s) && Enabled(g, s, Step(t)) && FinishingStep(s.handlers[t].at)
    ensures LocksInv(Exec(g, s, Step(t)))
  {
    hide Total, AnswerFor, Lookup;
    Counted(s, t);
    Nested(s);
    NestedAt(s.handlers, t);
    HandlerMoves(s.handlers, t, Exec(g, s, Step(t)).handlers[t]);
  }

  lemma ConnectKeepsLocks(g: seq<PS.Adjacency>, s: State, t: nat, i: nat, j: nat)
    requires PS.Closed(g) && LocksInv(s) && Enabled(g, s, Connect(t, i, j))
    ensures LocksInv(Exec(g, s, Connect(t, i, j)))
  {
    hide Total, AnswerFor, Lookup;
    HandlerMoves(s.handlers, t, Handler(TryRead, i, j, None));
  }

  /** Every step of every thread keeps the locks consistent. */
  lemma StepKeepsLocks(g: seq<PS.Adjacency>, s: State, a: Action)
    requires PS.Closed(g) && LocksInv(s) && Enabled(g, s, a)
    ensures LocksInv(Exec(g, s, a))
  {
    hide LocksInv, Exec, PS.Closed;
    match a
    case Connect(t, i, j) => ConnectKeepsLocks(g, s, t, i, j);
    case Step(t) =>
      var at := s.handlers[t].at;
      if EnteringStep(at) { EnteringKeepsLocks(g, s, t); }
      if ReadingStep(at) { ReadingKeepsLocks(g, s, t); }
      if SearchingStep(at) { SearchingKeepsLocks(g, s, t); }
      if QueueingStep(at) { QueueingKeepsLocks(g, s, t); }
      if StoringStep(at) { StoringKeepsLocks(g, s, t); }
      if FinishingStep(at) { FinishingKeepsLocks(g, s, t); }
  }

  // ---------------------------------------------------------------- the answers

  /** Thread t's own new state agrees with the answers. */
  lemma StepAgrees(g: seq<PS.Adjacency>, s: State, t: nat)
    requires PS.Closed(g) && AnswersInv(g, s) && Enabled(g, s, Step(t))
    ensures var s' := Exec(g, s, Step(t)); |s'.handlers| == |s.handlers| && HandlerAgrees(g, s'.handlers[t])
    ensures var s' := Exec(g, s, Step(t)); s'.handlers == s.handlers[t := s'.handlers[t]]
  {
    hide AnswerFor;
    var h := s.handlers[t];
    assert HandlerAgrees(g, h);
    if h.at.Reading? { LookupHas(s.cache[h.i], h.j); }
  }

  /** Caching a correct answer, even a second time, leaves every entry correct. */
  lemma CachingAgrees(g: seq<PS.Adjacency>, cache: seq<Entries>, i: nat, j: nat, path: string)
    requires PS.Closed(g) && CacheAgrees(g, cache) && i < |g| && j < |g| && path == AnswerFor(g, i, j)
    ensures CacheAgrees(g, cache[i := Entry(j, path, cache[i])])
  {
    hide AnswerFor;
    var cache' := cache[i := Entry(j, path, cache[i])];
    forall k, l, q | 0 <= k < |g| && 0 <= l < |g| && Has(cache'[k], l, q) ensures q == AnswerFor(g, k, l) {
      if !Has(cache[k], l, q) { assert k == i && l == j && q == path; }
    }
  }

  lemma StepKeepsCache(g: seq<PS.Adjacency>, s: State, t: nat)
    requires PS.Closed(g) && AnswersInv(g, s) && Enabled(g, s, Step(t))
    ensures CacheAgrees(g, Exec(g, s, Step(t)).cache)
  {
    hide AnswerFor, Lookup, CacheAgrees;
    var h := s.handlers[t];
    assert HandlerAgrees(g, h);
    if h.at.Writing? { CachingAgrees(g, s.cache, h.i, h.j, h.path.value); }
  }

  lemma StepKeepsLog(g: seq<PS.Adjacency>, s: State, t: nat)
    requires PS.Closed(g) && AnswersInv(g, s) && Enabled(g, s, Step(t))
    ensures var s' := Exec(g, s, Step(t)); forall k :: 0 <= k < |s'.log| ==> ResponseAgrees(g, s'.log[k])
  {
    hide AnswerFor, Lookup, CacheAgrees;
    assert HandlerAgrees(g, s.handlers[t]);
  }

  lemma StepKeepsAnswers(g: seq<PS.Adjacency>, s: State, a: Action)
    requires PS.Closed(g) && AnswersInv(g, s) && Enabled(g, s, a)
    ensures AnswersInv(g, Exec(g, s, a))
  {
    hide AnswerFor, CacheAgrees, HandlerAgrees, ResponseAgrees, Advance;
    match a
    case Connect(t, i, j) =>
      Connected(g, i, j);
    case Step(t) =>
      StepAgrees(g, s, t);
      StepKeepsCache(g, s, t);
      StepKeepsLog(g, s, t);
  }

  lemma Connected(g: seq<PS.Adjacency>, i: nat, j: nat)
    requires PS.Closed(g) && i < |g| && j < |g|
    ensures HandlerAgrees(g, Handler(TryRead, i, j, None))
  {
  }

  // ---------------------------------------------------------------- runs

  lemma InitLocks(g: seq<PS.Adjacency>, threads: nat)
    ensures LocksInv(Init(g, threads))
  {
    var hs := Init(g, threads).handlers;
    hide Total;
    TotalAtMost(InReadMutex(), hs, 0);
    TotalAtMost(Entering(), hs, 0);
    TotalAtMost(Readers(), hs, 0);
    TotalAtMost(InWriteMutex(), hs, 0);
    TotalAtMost(Writers(), hs, 0);
    TotalAtMost(WithCache(), hs, 0);
    TotalAtMost(InGraph(), hs, 0);
    TotalAtMost(FirstIn(), hs, 0);
    TotalAtMost(LastOut(), hs, 0);
    TotalAtMost(FirstWrites(), hs, 0);
    TotalAtMost(LastWrites(), hs, 0);
  }

  lemma {:induction false} RunInv(g: seq<PS.Adjacency>, threads: nat, states: seq<State>)
    requires PS.Closed(g) && Run(g, threads, states)
    ensures forall k :: 0 <= k < |states| ==> LocksInv(states[k]) && AnswersInv(g, states[k])
  {
    hide LocksInv, AnswersInv, Exec, PS.Closed;
    if |states| == 1 {
      InitLocks(g, threads);
      InitAnswers(g, threads);
    } else {
      var before := states[..|states| - 1];
      var last := states[|states| - 2];
      RunInv(g, threads, before);
      assert before[|before| - 1] == last && LocksInv(last) && AnswersInv(g, last);
      assert Follows(g, last, states[|states| - 1]);
      var a: Action :| Enabled(g, last, a) && states[|states| - 1] == Exec(g, last, a);
      StepKeepsLocks(g, last, a);
      StepKeepsAnswers(g, last, a);
      forall k | 0 <= k < |states| ensures LocksInv(states[k]) && AnswersInv(g, states[k]) {
        if k < |before| { assert before[k] == states[k]; }
      }
    }
  }

  lemma InitAnswers(g: seq<PS.Adjacency>, threads: nat)
    requires PS.Closed(g)
    ensures AnswersInv(g, Init(g, threads))
  {
  }

  lemma ReachableInv(g: seq<PS.Adjacency>, threads: nat, s: State)
    requires PS.Closed(g) && Reachable(g, threads, s)
    ensures LocksInv(s) && AnswersInv(g, s)
  {
    hide LocksInv, AnswersInv, PS.Closed;
    var states :| Run(g, threads, states) && states[|states| - 1] == s;
    RunInv(g, threads, states);
  }

  // ---------------------------------------------------------------- the promises, over every run

  /** A thread writing to the cache excludes every thread reading it and every other writer. */
  lemma WriterExcludesAll(g: seq<PS.Adjacency>, threads: nat, s: State, t: nat, u: nat)
    requires PS.Closed(g) && Reachable(g, threads, s) && t < |s.handlers| && u < |s.handlers| && t != u
    requires s.handlers[t].at.Writing?
    ensures !s.handlers[u].at.Writing? && !s.handlers[u].at.Reading?
  {
    hide Total, AnswersInv, PS.Closed;
    ReachableInv(g, threads, s);
    Nested(s);
    TotalCovers(WithCache(), s.handlers, t, u);
    Counted(s, u);
    if Count(s, FirstIn()) > 0 && s.handlers[u].at.Reading? {
      var k := TotalWitness(FirstIn(), s.handlers);
      TotalCovers(Readers(), s.handlers, k, u);
    }
  }

  /** While the writer group holds read_try no reader is past it, and none can pass. */
  lemma WritersShutReadersOut(g: seq<PS.Adjacency>, threads: nat, s: State)
    requires PS.Closed(g) && Reachable(g, threads, s) && WritersHold(s)
    ensures s.readTry == 0
    ensures forall t :: 0 <= t < |s.handlers| ==> Entering()(s.handlers[t]) == 0
    ensures forall t :: 0 <= t < |s.handlers| && s.handlers[t].at.TryRead? ==> !Enabled(g, s, Step(t))
  {
    hide Total, AnswersInv, PS.Closed;
    ReachableInv(g, threads, s);
    Nested(s);
    forall t | 0 <= t < |s.handlers| ensures Entering()(s.handlers[t]) == 0 { Counted(s, t); }
  }

  /** The first reader never blocks on cache_mutex. */
  lemma FirstReaderNeverBlocks(g: seq<PS.Adjacency>, threads: nat, s: State, t: nat)
    requires PS.Closed(g) && Reachable(g, threads, s) && t < |s.handlers| && s.handlers[t].at.FirstReader?
    ensures s.cacheMutex == 1 && Enabled(g, s, Step(t))
  {
    hide Total, PS.Closed, Has;
    ReachableInv(g, threads, s);
    FirstReaderFree(s, t);
  }

  lemma FirstReaderFree(s: State, t: nat)
    requires LocksInv(s) && t < |s.handlers| && s.handlers[t].at.FirstReader?
    ensures s.cacheMutex == 1
  {
    hide Total;
    Nested(s);
    Counted(s, t);
    if Count(s, FirstWrites()) > 0 && Count(s, WithCache()) > 0 {
      var k := TotalWitness(FirstWrites(), s.handlers);
      NestedAt(s.handlers, k);
    }
  }

  /** The pc of a thread that is not idle and whose next step is not enabled. */
  predicate Blocked(s: State, at: At) {
    && (at.TryRead? || at.LockRead? || at.FirstReader? || at.LockLeave? || at.AwaitGraph?
        || at.LockWrite? || at.FirstWriter? || at.AwaitCache? || at.LockDone?)
    && !Ready(s, at)
  }

  ghost predicate AllBlocked(s: State) {
    forall t :: 0 <= t < |s.handlers| ==> s.handlers[t].at.Idle? || Blocked(s, s.handlers[t].at)
  }

  /** When everybody who is at work is blocked, each lock is free. */
  lemma BlockedLocksFree(s: State)
    requires LocksInv(s) && AllBlocked(s)
    ensures s.readMutex == 1 && s.graphMutex == 1
    ensures forall t :: 0 <= t < |s.handlers| ==> !s.handlers[t].at.FirstReader?
    ensures s.writeMutex == 1 && s.readTry == 1 && s.cacheMutex == 1
  {
    hide Total;
    var hs := s.handlers;
    Nested(s);
    forall t | 0 <= t < |hs| ensures !hs[t].at.FirstReader? {
      if hs[t].at.FirstReader? { FirstReaderFree(s, t); }
    }
    TotalAtMost(InGraph(), hs, 0);
    TotalAtMost(InReadMutex(), hs, 0);
    TotalAtMost(Readers(), hs, 0);
    TotalAtMost(Entering(), hs, 0);
    TotalAtMost(WithCache(), hs, 0);
    TotalAtMost(LastWrites(), hs, 0);
    forall t | 0 <= t < |hs| ensures !hs[t].at.FirstWriter? {
      Counted(s, t);
    }
    TotalAtMost(InWriteMutex(), hs, 0);
    TotalAtMost(Writers(), hs, 0);
  }

  /** Deadlock freedom: while some thread is at work, some thread at work has an enabled step. */
  lemma DeadlockFreedom(g: seq<PS.Adjacency>, threads: nat, s: State, t: nat)
    requires PS.Closed(g) && Reachable(g, threads, s) && t < |s.handlers| && !s.handlers[t].at.Idle?
    ensures exists u: nat :: Enabled(g, s, Step(u))
  {
    hide Total, LocksInv, AnswersInv, PS.Closed;
    ReachableInv(g, threads, s);
    ReachableSane(g, s);
    if AllBlocked(s) {
      BlockedLocksFree(s);
      assert false;
    } else {
      var u :| 0 <= u < |s.handlers| && !s.handlers[u].at.Idle? && !Blocked(s, s.handlers[u].at);
      assert Enabled(g, s, Step(u));
    }
  }

  lemma ReachableSane(g: seq<PS.Adjacency>, s: State)
    requires PS.Closed(g) && AnswersInv(g, s)
    ensures Sane(g, s)
  {
    forall t | 0 <= t < |s.handlers| ensures SaneHandler(g, s.handlers[t]) {
      assert HandlerAgrees(g, s.handlers[t]);
    }
  }

  /** Every response of every run is the text of a fresh search for its pair, cached or not. */
  lemma CachedAnswersAreFresh(g: seq<PS.Adjacency>, threads: nat, s: State)
    requires PS.Closed(g) && Reachable(g, threads, s)
    ensures forall k :: 0 <= k < |s.log| ==>
              && s.log[k].i < |g| && s.log[k].j < |g|
              && s.log[k].path == Answer(PS.Bfs(g, s.log[k].i, s.log[k].j))
  {
    hide LocksInv, PS.Closed, PS.Bfs, Answer;
    ReachableInv(g, threads, s);
    forall k | 0 <= k < |s.log| ensures ResponseAgrees(g, s.log[k]) {}
  }

  ghost predicate Shortest(g: seq<PS.Adjacency>, p: seq<nat>, i: nat, j: nat) {
    PS.WalkBetween(g, p, i, j) && forall w :: PS.WalkBetween(g, w, i, j) ==> |p| <= |w|
  }

  /**
   A response says "path not possible." exactly when there is no path, and otherwise what a reader finds in it is
   a shortest one.
   */
  lemma ResponsesAreRight(g: seq<PS.Adjacency>, threads: nat, s: State, k: nat)
    requires PS.Closed(g) && Reachable(g, threads, s) && k < |s.log|
    ensures var r := s.log[k];
      && r.i < |g| && r.j < |g|
      && (r.path == "path not possible." <==> !exists w :: PS.WalkBetween(g, w, r.i, r.j))
      && match ReadPath(r.path)
         case None => r.path == "path not possible."
         case Some(p) => Shortest(g, p, r.i, r.j)
  {
    hide LocksInv, PS.Closed, PS.Bfs;
    CachedAnswersAreFresh(g, threads, s);
    var r := s.log[k];
    PS.BfsCorrect(g, r.i, r.j);
    var found := PS.Bfs(g, r.i, r.j);
    if found.Some? {
      assert Shortest(g, found.value, r.i, r.j);
      RenderReads(r.path, found.value);
      if Answer(found) == NO_PATH { AnswerInjective(found, None); }
    } else {
      NoPathUnread();
    }
  }
}
