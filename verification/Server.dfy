/**
 The connection handlers of the server: any number of threads that look a path up in the shared cache
 under a writer-preferring readers/writers protocol, compute it on a miss, store it and respond. One
 step per semaphore operation, counter update, cache access or search.
 */
module Server {
  import opened Wrappers
  import opened Tally
  import opened Packet
  import opened Cache
  import PS = PathSearch

  datatype At =
    | Idle
    // read_database: entering
    | TryRead          // on read_try
    | LockRead         // on read_mutex
    | CountIn          // about to count itself in
    | FirstReader      // on cache_mutex, as the first reader
    | UnlockRead       // about to post read_mutex
    | ReleaseTry       // about to post read_try
    | Reading          // about to search the cache
    // read_database: leaving
    | LockLeave        // on read_mutex
    | CountOut         // about to count itself out
    | LastReader       // about to post cache_mutex, as the last reader
    | UnlockLeave      // about to post read_mutex
    // the search
    | AwaitGraph       // on graph_mutex
    | Computing        // about to search the graph
    | ReleaseGraph     // about to post graph_mutex
    // write_database: entering
    | LockWrite        // on write_mutex
    | CountWriter      // about to count itself in
    | FirstWriter      // on read_try, as the first writer
    | UnlockWrite      // about to post write_mutex
    | AwaitCache       // on cache_mutex
    | Writing          // about to put the path in the cache
    // write_database: leaving
    | ReleaseCache     // about to post cache_mutex
    | LockDone         // on write_mutex
    | CountDone        // about to count itself out
    | LastWriter       // about to post read_try, as the last writer
    | UnlockDone       // about to post write_mutex
    | Responding

  /** A thread with the pair it was asked for, and the path it will respond with once it has one. */
  datatype Handler = Handler(at: At, i: nat, j: nat, path: Option<string>)

  datatype Response = Response(i: nat, j: nat, path: string)

  datatype State = State(
    handlers: seq<Handler>,
    readTry: int, readMutex: int, writeMutex: int, cacheMutex: int, graphMutex: int,
    readCount: int, writeCount: int,
    cache: seq<Entries>,
    log: seq<Response>)

  /** A new connection asks thread t for a path from i to j, or thread t takes its next step. */
  datatype Action = Connect(t: nat, i: nat, j: nat) | Step(t: nat)

  function Init(g: seq<PS.Adjacency>, threads: nat): State {
    State(seq(threads, _ => Handler(Idle, 0, 0, None)), 1, 1, 1, 1, 1, 0, 0, seq(|g|, _ => Nil), [])
  }

  /** A thread that is about to write or to respond has a path. */
  predicate HasPath(at: At) {
    match at
    case Idle => false
    case TryRead => false
    case LockRead => false
    case CountIn => false
    case FirstReader => false
    case UnlockRead => false
    case ReleaseTry => false
    case Reading => false
    case LockLeave => false
    case CountOut => false
    case LastReader => false
    case UnlockLeave => false
    case AwaitGraph => false
    case Computing => false
    case _ => true
  }

  /** The cache has a list per vertex, requested pairs are vertices, and paths are there when needed. */
  predicate Sane(g: seq<PS.Adjacency>, s: State) {
    && |s.cache| == |g|
    && forall t :: 0 <= t < |s.handlers| ==> SaneHandler(g, s.handlers[t])
  }

  predicate SaneHandler(g: seq<PS.Adjacency>, h: Handler) {
    && (!h.at.Idle? ==> h.i < |g| && h.j < |g|)
    && (HasPath(h.at) ==> h.path.Some?)
  }

  /** The semaphore a thread waits on, if any, is available. */
  predicate Ready(s: State, at: At) {
    match at
    case TryRead => s.readTry > 0
    case LockRead => s.readMutex > 0
    case FirstReader => s.cacheMutex > 0
    case LockLeave => s.readMutex > 0
    case AwaitGraph => s.graphMutex > 0
    case LockWrite => s.writeMutex > 0
    case FirstWriter => s.readTry > 0
    case AwaitCache => s.cacheMutex > 0
    case LockDone => s.writeMutex > 0
    case _ => true
  }

  predicate Enabled(g: seq<PS.Adjacency>, s: State, a: Action) {
    && Sane(g, s) && a.t < |s.handlers|
    && match a
       case Connect(t, i, j) => s.handlers[t].at.Idle? && i < |g| && j < |g|
       case Step(t) => !s.handlers[t].at.Idle? && Ready(s, s.handlers[t].at)
  }

  /** What the server answers for a pair: the rendered result of the search. */
  function AnswerFor(g: seq<PS.Adjacency>, i: nat, j: nat): string
    requires PS.Closed(g) && i < |g| && j < |g|
  {
    Answer(PS.Bfs(g, i, j))
  }

  function Exec(g: seq<PS.Adjacency>, s: State, a: Action): State
    requires PS.Closed(g) && Enabled(g, s, a)
  {
    match a
    case Connect(t, i, j) => s.(handlers := s.handlers[t := Handler(TryRead, i, j, None)])
    case Step(t) => Advance(g, s, t)
  }

  function Go(s: State, t: nat, at: At): State
    requires t < |s.handlers|
  {
    s.(handlers := s.handlers[t := s.handlers[t].(at := at)])
  }

  function Advance(g: seq<PS.Adjacency>, s: State, t: nat): State
    requires PS.Closed(g) && Enabled(g, s, Step(t))
  {
    var h := s.handlers[t];
    assert SaneHandler(g, h);
    match h.at
    case TryRead => Go(s, t, LockRead).(readTry := s.readTry - 1)
    case LockRead => Go(s, t, CountIn).(readMutex := s.readMutex - 1)
    case CountIn =>
      Go(s, t, if s.readCount + 1 == 1 then FirstReader else UnlockRead).(readCount := s.readCount + 1)
    case FirstReader => Go(s, t, UnlockRead).(cacheMutex := s.cacheMutex - 1)
    case UnlockRead => Go(s, t, ReleaseTry).(readMutex := s.readMutex + 1)
    case ReleaseTry => Go(s, t, Reading).(readTry := s.readTry + 1)
    case Reading =>
      s.(handlers := s.handlers[t := h.(at := LockLeave, path := Lookup(s.cache[h.i], h.j))])
    case LockLeave => Go(s, t, CountOut).(readMutex := s.readMutex - 1)
    case CountOut =>
      Go(s, t, if s.readCount - 1 == 0 then LastReader else UnlockLeave).(readCount := s.readCount - 1)
    case LastReader => Go(s, t, UnlockLeave).(cacheMutex := s.cacheMutex + 1)
    case UnlockLeave =>
      Go(s, t, if h.path.Some? then Responding else AwaitGraph).(readMutex := s.readMutex + 1)
    case AwaitGraph => Go(s, t, Computing).(graphMutex := s.graphMutex - 1)
    case Computing =>
      s.(handlers := s.handlers[t := h.(at := ReleaseGraph, path := Some(AnswerFor(g, h.i, h.j)))])
    case ReleaseGraph => Go(s, t, LockWrite).(graphMutex := s.graphMutex + 1)
    case LockWrite => Go(s, t, CountWriter).(writeMutex := s.writeMutex - 1)
    case CountWriter =>
      Go(s, t, if s.writeCount + 1 == 1 then FirstWriter else UnlockWrite).(writeCount := s.writeCount + 1)
    case FirstWriter => Go(s, t, UnlockWrite).(readTry := s.readTry - 1)
    case UnlockWrite => Go(s, t, AwaitCache).(writeMutex := s.writeMutex + 1)
    case AwaitCache => Go(s, t, Writing).(cacheMutex := s.cacheMutex - 1)
    case Writing =>
      Go(s, t, ReleaseCache).(cache := s.cache[h.i := Entry(h.j, h.path.value, s.cache[h.i])])
    case ReleaseCache => Go(s, t, LockDone).(cacheMutex := s.cacheMutex + 1)
    case LockDone => Go(s, t, CountDone).(writeMutex := s.writeMutex - 1)
    case CountDone =>
      Go(s, t, if s.writeCount - 1 == 0 then LastWriter else UnlockDone).(writeCount := s.writeCount - 1)
    case LastWriter => Go(s, t, UnlockDone).(readTry := s.readTry + 1)
    case UnlockDone => Go(s, t, Responding).(writeMutex := s.writeMutex + 1)
    case Responding => Go(s, t, Idle).(log := s.log + [Response(h.i, h.j, h.path.value)])
  }

  /** A finite run from the initial state. */
  ghost predicate Run(g: seq<PS.Adjacency>, threads: nat, states: seq<State>)
    requires PS.Closed(g)
  {
    && states != [] && states[0] == Init(g, threads)
    && forall k :: 0 < k < |states| ==> Follows(g, states[k - 1], states[k])
  }

  ghost predicate Follows(g: seq<PS.Adjacency>, s: State, s': State)
    requires PS.Closed(g)
  {
    exists a: Action :: Enabled(g, s, a) && s' == Exec(g, s, a)
  }

  ghost predicate Reachable(g: seq<PS.Adjacency>, threads: nat, s: State)
    requires PS.Closed(g)
  {
    exists states :: Run(g, threads, states) && states[|states| - 1] == s
  }

  // ---------------------------------------------------------------- the readers/writers invariant

  function InReadMutex(): Handler -> int {
    (h: Handler) => Bit(h.at.CountIn? || h.at.FirstReader? || h.at.UnlockRead?
                        || h.at.CountOut? || h.at.LastReader? || h.at.UnlockLeave?)
  }

  /** Readers between read_try and its release. */
  function Entering(): Handler -> int {
    (h: Handler) => Bit(h.at.LockRead? || h.at.CountIn? || h.at.FirstReader? || h.at.UnlockRead? || h.at.ReleaseTry?)
  }

  function Readers(): Handler -> int {
    (h: Handler) => Bit(h.at.FirstReader? || h.at.UnlockRead? || h.at.ReleaseTry? || h.at.Reading?
                        || h.at.LockLeave? || h.at.CountOut?)
  }

  function InWriteMutex(): Handler -> int {
    (h: Handler) => Bit(h.at.CountWriter? || h.at.FirstWriter? || h.at.UnlockWrite?
                        || h.at.CountDone? || h.at.LastWriter? || h.at.UnlockDone?)
  }

  function Writers(): Handler -> int {
    (h: Handler) => Bit(h.at.FirstWriter? || h.at.UnlockWrite? || h.at.AwaitCache? || h.at.Writing?
                        || h.at.ReleaseCache? || h.at.LockDone? || h.at.CountDone?)
  }

  function WithCache(): Handler -> int { (h: Handler) => Bit(h.at.Writing? || h.at.ReleaseCache?) }

  function InGraph(): Handler -> int { (h: Handler) => Bit(h.at.Computing? || h.at.ReleaseGraph?) }

  function FirstIn(): Handler -> int { (h: Handler) => Bit(h.at.FirstReader?) }

  function LastOut(): Handler -> int { (h: Handler) => Bit(h.at.LastReader?) }

  function FirstWrites(): Handler -> int { (h: Handler) => Bit(h.at.FirstWriter?) }

  function LastWrites(): Handler -> int { (h: Handler) => Bit(h.at.LastWriter?) }

  function Count(s: State, weight: Handler -> int): int { Total(weight, s.handlers) }

  /** The readers, as a group, hold cache_mutex. */
  predicate ReadersHold(s: State) {
    (s.readCount > 0 && Count(s, FirstIn()) == 0) || Count(s, LastOut()) > 0
  }

  /** The writers, as a group, hold read_try. */
  predicate WritersHold(s: State) {
    (s.writeCount > 0 && Count(s, FirstWrites()) == 0) || Count(s, LastWrites()) > 0
  }

  ghost predicate LocksInv(s: State) {
    && s.readTry >= 0 && s.readMutex >= 0 && s.writeMutex >= 0 && s.cacheMutex >= 0 && s.graphMutex >= 0
    && s.readMutex + Count(s, InReadMutex()) == 1
    && s.writeMutex + Count(s, InWriteMutex()) == 1
    && s.graphMutex + Count(s, InGraph()) == 1
    && s.readCount == Count(s, Readers())
    && s.writeCount == Count(s, Writers())
    && s.readTry + Count(s, Entering()) + Bit(WritersHold(s)) == 1
    && s.cacheMutex + Count(s, WithCache()) + Bit(ReadersHold(s)) == 1
    && (Count(s, FirstIn()) > 0 ==> s.readCount == 1)
    && (Count(s, LastOut()) > 0 ==> s.readCount == 0)
    && (Count(s, FirstWrites()) > 0 ==> s.writeCount == 1)
    && (Count(s, LastWrites()) > 0 ==> s.writeCount == 0)
  }

  /** Every cached path is the answer for its pair. */
  ghost predicate CacheAgrees(g: seq<PS.Adjacency>, cache: seq<Entries>)
    requires PS.Closed(g)
  {
    && |cache| == |g|
    && forall i, j, path :: 0 <= i < |g| && 0 <= j < |g| && Has(cache[i], j, path) ==> path == AnswerFor(g, i, j)
  }

  /** A path in hand is the answer for the pair the thread was asked for. */
  ghost predicate HandlerAgrees(g: seq<PS.Adjacency>, h: Handler)
    requires PS.Closed(g)
  {
    SaneHandler(g, h) && (!h.at.Idle? && h.path.Some? ==> h.path.value == AnswerFor(g, h.i, h.j))
  }

  ghost predicate ResponseAgrees(g: seq<PS.Adjacency>, r: Response)
    requires PS.Closed(g)
  {
    r.i < |g| && r.j < |g| && r.path == AnswerFor(g, r.i, r.j)
  }

  /** Every cached path, every path in hand and every response is the answer for its pair. */
  ghost predicate AnswersInv(g: seq<PS.Adjacency>, s: State)
    requires PS.Closed(g)
  {
    && CacheAgrees(g, s.cache)
    && (forall t :: 0 <= t < |s.handlers| ==> HandlerAgrees(g, s.handlers[t]))
    && (forall k :: 0 <= k < |s.log| ==> ResponseAgrees(g, s.log[k]))
  }
}
