/**
 When the cache can get the same entry twice: two threads that miss together both store what they compute,
 since neither looks again; a single thread never does.
 */
module ServerExample {
  import opened Wrappers
  import opened Cache
  import opened Server
  import PS = PathSearch

  lemma Goes(g: seq<PS.Adjacency>, threads: nat, s: State, a: Action) returns (s': State)
    requires PS.Closed(g) && Reachable(g, threads, s) && Enabled(g, s, a)
    ensures s' == Exec(g, s, a) && Reachable(g, threads, s')
  {
    hide Enabled, Exec, PS.Closed;
    var states :| Run(g, threads, states) && states[|states| - 1] == s;
    s' := Exec(g, s, a);
    var longer := states + [s'];
    forall k | 0 < k < |longer| ensures Follows(g, longer[k - 1], longer[k]) {
      if k < |states| { assert Follows(g, states[k - 1], states[k]); }
    }
    assert Run(g, threads, longer);
  }

  /** Nobody holds a semaphore and nobody is counted. */
  predicate AllFree(s: State) {
    && s.readTry == s.readMutex == s.writeMutex == s.cacheMutex == s.graphMutex == 1
    && s.readCount == s.writeCount == 0
  }

  /** Thread t is asked for a pair that is not in the cache, and finds that out. */
  lemma Misses(g: seq<PS.Adjacency>, threads: nat, s: State, t: nat, i: nat, j: nat) returns (s': State)
    requires PS.Closed(g) && Reachable(g, threads, s) && Sane(g, s) && AllFree(s)
    requires t < |s.handlers| && s.handlers[t].at.Idle? && i < |g| && j < |g| && Lookup(s.cache[i], j) == None
    ensures Reachable(g, threads, s')
    ensures s' == s.(handlers := s.handlers[t := Handler(AwaitGraph, i, j, None)])
  {
    hide Reachable, PS.Closed, AnswerFor, Lookup;
    s' := Goes(g, threads, s, Connect(t, i, j));
    s' := Goes(g, threads, s', Step(t));
    s' := Goes(g, threads, s', Step(t));
    s' := Goes(g, threads, s', Step(t));
    s' := Goes(g, threads, s', Step(t));
    s' := Goes(g, threads, s', Step(t));
    s' := Goes(g, threads, s', Step(t));
    s' := Goes(g, threads, s', Step(t));
    s' := Goes(g, threads, s', Step(t));
    s' := Goes(g, threads, s', Step(t));
    s' := Goes(g, threads, s', Step(t));
    s' := Goes(g, threads, s', Step(t));
    assert s'.handlers == s.handlers[t := Handler(AwaitGraph, i, j, None)];
  }

  /** Thread t, after its miss, searches, and is about to write. */
  lemma Computes(g: seq<PS.Adjacency>, threads: nat, s: State, t: nat) returns (s': State)
    requires PS.Closed(g) && Reachable(g, threads, s) && Sane(g, s) && AllFree(s)
    requires t < |s.handlers| && s.handlers[t].at.AwaitGraph?
    ensures Reachable(g, threads, s')
    ensures var h := s.handlers[t];
      && h.i < |g| && h.j < |g|
      && s' == s.(handlers := s.handlers[t := Handler(LockWrite, h.i, h.j, Some(AnswerFor(g, h.i, h.j)))])
  {
    hide Reachable, PS.Closed, AnswerFor, Lookup;
    assert SaneHandler(g, s.handlers[t]);
    s' := Goes(g, threads, s, Step(t));
    s' := Goes(g, threads, s', Step(t));
    s' := Goes(g, threads, s', Step(t));
    var h := s.handlers[t];
    assert s'.handlers == s.handlers[t := Handler(LockWrite, h.i, h.j, Some(AnswerFor(g, h.i, h.j)))];
  }

  /** Thread t stores its path. */
  lemma Stores(g: seq<PS.Adjacency>, threads: nat, s: State, t: nat) returns (s': State)
    requires PS.Closed(g) && Reachable(g, threads, s) && Sane(g, s) && AllFree(s)
    requires t < |s.handlers| && s.handlers[t].at.LockWrite?
    ensures Reachable(g, threads, s')
    ensures var h := s.handlers[t];
      && h.i < |g| && h.path.Some?
      && s' == s.(handlers := s.handlers[t := h.(at := Responding)],
                  cache := s.cache[h.i := Entry(h.j, h.path.value, s.cache[h.i])])
  {
    hide Reachable, PS.Closed, AnswerFor, Lookup;
    assert SaneHandler(g, s.handlers[t]);
    s' := Goes(g, threads, s, Step(t));
    s' := Goes(g, threads, s', Step(t));
    s' := Goes(g, threads, s', Step(t));
    s' := Goes(g, threads, s', Step(t));
    s' := Goes(g, threads, s', Step(t));
    s' := Goes(g, threads, s', Step(t));
    s' := Goes(g, threads, s', Step(t));
    s' := Goes(g, threads, s', Step(t));
    s' := Goes(g, threads, s', Step(t));
    s' := Goes(g, threads, s', Step(t));
    s' := Goes(g, threads, s', Step(t));
    assert s'.handlers == s.handlers[t := s.handlers[t].(at := Responding)];
  }

  /** For every graph and every pair two threads, among any number, can leave the same entry in the cache twice. */
  lemma DuplicateEntries(g: seq<PS.Adjacency>, threads: nat, i: nat, j: nat) returns (s: State)
    requires PS.Closed(g) && i < |g| && j < |g| && threads >= 2
    ensures Reachable(g, threads, s) && |s.cache| == |g|
    ensures s.cache[i] == Entry(j, AnswerFor(g, i, j), Entry(j, AnswerFor(g, i, j), Nil))
  {
    s := Init(g, threads);
    assert Run(g, threads, [s]) && Reachable(g, threads, s);
    hide Reachable, PS.Closed, AnswerFor;
    s := Misses(g, threads, s, 0, i, j);
    s := Misses(g, threads, s, 1, i, j);
    s := Computes(g, threads, s, 0);
    s := Computes(g, threads, s, 1);
    s := Stores(g, threads, s, 0);
    s := Stores(g, threads, s, 1);
  }

  // ---------------------------------------------------------------- when it cannot happen

  /** No vertex has two entries in the list. */
  predicate Once(entries: Entries) {
    match entries
    case Nil => true
    case Entry(v, _, next) => Lookup(next, v).None? && Once(next)
  }

  /** No pair is stored twice. */
  predicate StoredOnce(s: State) {
    forall i :: 0 <= i < |s.cache| ==> Once(s.cache[i])
  }

  /** The thread has looked, found nothing, and not stored its path yet. */
  predicate PastMiss(h: Handler) {
    match h.at
    case LockLeave => h.path.None?
    case CountOut => h.path.None?
    case LastReader => h.path.None?
    case UnlockLeave => h.path.None?
    case AwaitGraph => true
    case Computing => true
    case ReleaseGraph => true
    case LockWrite => true
    case CountWriter => true
    case FirstWriter => true
    case UnlockWrite => true
    case AwaitCache => true
    case Writing => true
    case _ => false
  }

  /** With one thread at most, what it missed is still not there when it stores it. */
  predicate Alone(g: seq<PS.Adjacency>, s: State) {
    && |s.handlers| <= 1 && StoredOnce(s)
    && forall t :: 0 <= t < |s.handlers| && PastMiss(s.handlers[t]) ==>
         (s.handlers[t].i < |s.cache| && Lookup(s.cache[s.handlers[t].i], s.handlers[t].j).None?)
  }

  lemma StepKeepsAlone(g: seq<PS.Adjacency>, s: State, a: Action)
    requires PS.Closed(g) && Enabled(g, s, a) && Alone(g, s)
    ensures Alone(g, Exec(g, s, a))
  {
    hide PS.Closed, AnswerFor, Ready;
    assert a.t == 0 && SaneHandler(g, s.handlers[0]);
    if a.Step? { AdvanceKeepsAlone(g, s); }
  }

  lemma AdvanceKeepsAlone(g: seq<PS.Adjacency>, s: State)
    requires PS.Closed(g) && Enabled(g, s, Step(0)) && Alone(g, s) && SaneHandler(g, s.handlers[0])
    ensures Alone(g, Advance(g, s, 0))
  {
    hide PS.Closed, AnswerFor, Lookup;
    match s.handlers[0].at
    case Reading =>
    case Writing =>
    case _ =>
  }

  lemma {:induction false} RunKeepsAlone(g: seq<PS.Adjacency>, threads: nat, states: seq<State>, n: nat)
    requires PS.Closed(g) && Run(g, threads, states) && n < |states| && threads <= 1
    ensures Alone(g, states[n])
  {
    hide PS.Closed, Enabled, Exec;
    if n > 0 {
      hide Alone;
      RunKeepsAlone(g, threads, states, n - 1);
      assert Follows(g, states[n - 1], states[n]);
      var a: Action :| Enabled(g, states[n - 1], a) && states[n] == Exec(g, states[n - 1], a);
      StepKeepsAlone(g, states[n - 1], a);
    }
  }

  /** The cache stores no pair twice in any run exactly when there is at most one thread, or no pair to ask for. */
  lemma StoredOnceExactly(g: seq<PS.Adjacency>, threads: nat)
    requires PS.Closed(g)
    ensures (forall s :: Reachable(g, threads, s) ==> StoredOnce(s)) <==> (threads <= 1 || g == [])
  {
    if threads >= 2 && g != [] {
      var s := DuplicateEntries(g, threads, 0, 0);
      assert !Once(s.cache[0]);
    } else {
      forall s | Reachable(g, threads, s) ensures StoredOnce(s) {
        var states :| Run(g, threads, states) && states[|states| - 1] == s;
        if threads <= 1 {
          RunKeepsAlone(g, threads, states, |states| - 1);
        } else {
          RunKeepsLists(g, threads, states, |states| - 1);
        }
      }
    }
  }

  /** The cache has a list per vertex throughout. */
  lemma {:induction false} RunKeepsLists(g: seq<PS.Adjacency>, threads: nat, states: seq<State>, n: nat)
    requires PS.Closed(g) && Run(g, threads, states) && n < |states|
    ensures |states[n].cache| == |g|
  {
    hide PS.Closed, AnswerFor, Lookup, Ready;
    if n > 0 {
      assert Follows(g, states[n - 1], states[n]);
      var a: Action :| Enabled(g, states[n - 1], a) && states[n] == Exec(g, states[n - 1], a);
    }
  }
}
