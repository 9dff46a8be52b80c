/** How long the server's threads work: every request is over after a fixed number of steps, and is answered. */
module ServerProgress {
  import opened Wrappers
  import opened Tally
  import opened Server
  import ServerTheorems
  import PS = PathSearch

  /** The longest way a thread has to go, from a new connection. */
  const LONGEST := 26

  /** The most steps a thread can still take for its request. */
  function Remaining(at: At): (n: nat)
    ensures n <= LONGEST && (n == 0 <==> at.Idle?)
  {
    match at
    case Idle => 0
    case TryRead => 26
    case LockRead => 25
    case CountIn => 24
    case FirstReader => 23
    case UnlockRead => 22
    case ReleaseTry => 21
    case Reading => 20
    case LockLeave => 19
    case CountOut => 18
    case LastReader => 17
    case UnlockLeave => 16
    case AwaitGraph => 15
    case Computing => 14
    case ReleaseGraph => 13
    case LockWrite => 12
    case CountWriter => 11
    case FirstWriter => 10
    case UnlockWrite => 9
    case AwaitCache => 8
    case Writing => 7
    case ReleaseCache => 6
    case LockDone => 5
    case CountDone => 4
    case LastWriter => 3
    case UnlockDone => 2
    case Responding => 1
  }

  function StepsLeft(): Handler -> int { (h: Handler) => Remaining(h.at) }

  function Work(s: State): int { Total(StepsLeft(), s.handlers) }

  // ---------------------------------------------------------------- what has been asked for

  function AtWork(): Handler -> int { (h: Handler) => Bit(!h.at.Idle?) }

  function WorksOn(i: nat, j: nat): Handler -> int { (h: Handler) => Bit(!h.at.Idle? && h.i == i && h.j == j) }

  function Answers(i: nat, j: nat): Response -> int { (r: Response) => Bit(r.i == i && r.j == j) }

  /** The connections so far: each has its response in the log or a thread at work for it. */
  function Connections(s: State): int { |s.log| + Total(AtWork(), s.handlers) }

  /** How many of them have asked for a path from i to j. */
  function Asked(s: State, i: nat, j: nat): int { Total(Answers(i, j), s.log) + Total(WorksOn(i, j), s.handlers) }

  // ---------------------------------------------------------------- one step

  /** A thread's step changes no other thread and brings it nearer to its response. */
  lemma StepAdvances(g: seq<PS.Adjacency>, s: State, t: nat)
    requires PS.Closed(g) && Enabled(g, s, Step(t))
    ensures var s' := Exec(g, s, Step(t));
      && |s'.handlers| == |s.handlers| && s'.handlers == s.handlers[t := s'.handlers[t]]
      && Remaining(s'.handlers[t].at) < Remaining(s.handlers[t].at)
      && s'.handlers[t].i == s.handlers[t].i && s'.handlers[t].j == s.handlers[t].j
      && s'.log == s.log + if s'.handlers[t].at.Idle? then [Response(s.handlers[t].i, s.handlers[t].j, Text(s, t))]
                           else []
  {
    hide PS.Closed, AnswerFor, Ready;
    assert SaneHandler(g, s.handlers[t]);
    match s.handlers[t].at
    case Responding =>
    case _ =>
  }

  /** The path in hand. */
  function Text(s: State, t: nat): string
    requires t < |s.handlers|
  {
    if s.handlers[t].path.Some? then s.handlers[t].path.value else ""
  }

  /** A step loses no connection and makes up none, and leaves less work. */
  lemma StepAnswers(g: seq<PS.Adjacency>, s: State, t: nat, i: nat, j: nat)
    requires PS.Closed(g) && Enabled(g, s, Step(t))
    ensures var s' := Exec(g, s, Step(t));
      Work(s') < Work(s) && Connections(s') == Connections(s) && Asked(s', i, j) == Asked(s, i, j)
  {
    StepAdvances(g, s, t);
    hide PS.Closed, Exec, Total, Remaining;
    var s' := Exec(g, s, Step(t));
    TotalUpdate(StepsLeft(), s.handlers, t, s'.handlers[t]);
    TotalUpdate(AtWork(), s.handlers, t, s'.handlers[t]);
    TotalUpdate(WorksOn(i, j), s.handlers, t, s'.handlers[t]);
    if s'.handlers[t].at.Idle? {
      TotalAppend(Answers(i, j), s.log, s'.log[|s.log|]);
    } else {
      assert s'.log == s.log;
    }
  }

  /** A connection counts for its pair and no other, and adds the longest way to the work. */
  lemma ConnectAsks(g: seq<PS.Adjacency>, s: State, t: nat, i: nat, j: nat, i': nat, j': nat)
    requires PS.Closed(g) && Enabled(g, s, Connect(t, i, j))
    ensures var s' := Exec(g, s, Connect(t, i, j));
      && Work(s') == Work(s) + LONGEST && Connections(s') == Connections(s) + 1
      && Asked(s', i', j') == Asked(s, i', j') + Bit(i == i' && j == j')
  {
    hide PS.Closed, Total;
    var h := Handler(TryRead, i, j, None);
    TotalUpdate(StepsLeft(), s.handlers, t, h);
    TotalUpdate(AtWork(), s.handlers, t, h);
    TotalUpdate(WorksOn(i', j'), s.handlers, t, h);
  }

  // ---------------------------------------------------------------- runs

  /** However many threads there are, a run takes at most 27 steps for each connection, that one included. */
  lemma {:induction false} RunsAreBounded(g: seq<PS.Adjacency>, threads: nat, states: seq<State>, n: nat)
    requires PS.Closed(g) && Run(g, threads, states) && n < |states|
    ensures n + Work(states[n]) <= (LONGEST + 1) * Connections(states[n])
  {
    hide PS.Closed, Enabled, Exec, Work, Connections, Asked;
    if n == 0 {
      StartsIdle(g, threads);
    } else {
      RunsAreBounded(g, threads, states, n - 1);
      var s := states[n - 1];
      assert Follows(g, s, states[n]);
      var a: Action :| Enabled(g, s, a) && states[n] == Exec(g, s, a);
      match a
      case Connect(t, i, j) => ConnectAsks(g, s, t, i, j, i, j);
      case Step(t) => StepAnswers(g, s, t, 0, 0);
    }
  }

  lemma StartsIdle(g: seq<PS.Adjacency>, threads: nat)
    requires PS.Closed(g)
    ensures Work(Init(g, threads)) == Connections(Init(g, threads)) == 0
  {
    hide Total;
    TotalAtMost(StepsLeft(), Init(g, threads).handlers, 0);
    TotalAtMost(AtWork(), Init(g, threads).handlers, 0);
  }

  /** A sequence of steps of the threads, with no new connection. */
  ghost predicate Quiet(g: seq<PS.Adjacency>, states: seq<State>)
    requires PS.Closed(g)
  {
    states != [] && forall k :: 0 < k < |states| ==> QuietStep(g, states[k - 1], states[k])
  }

  ghost predicate QuietStep(g: seq<PS.Adjacency>, s: State, s': State)
    requires PS.Closed(g)
  {
    exists t: nat :: Enabled(g, s, Step(t)) && s' == Exec(g, s, Step(t))
  }

  lemma {:induction false} QuietRuns(g: seq<PS.Adjacency>, threads: nat, states: seq<State>, n: nat, i: nat, j: nat)
    requires PS.Closed(g) && Quiet(g, states) && Reachable(g, threads, states[0]) && n < |states|
    ensures n + Work(states[n]) <= Work(states[0])
    ensures Connections(states[n]) == Connections(states[0]) && Asked(states[n], i, j) == Asked(states[0], i, j)
    ensures Reachable(g, threads, states[n]) && |states[n].handlers| == |states[0].handlers|
  {
    hide PS.Closed, Enabled, Exec, Work, Connections, Asked, Run;
    if n > 0 {
      QuietRuns(g, threads, states, n - 1, i, j);
      var s := states[n - 1];
      assert QuietStep(g, s, states[n]);
      var t: nat :| Enabled(g, s, Step(t)) && states[n] == Exec(g, s, Step(t));
      StepAnswers(g, s, t, i, j);
      StepAdvances(g, s, t);
      ReachesOn(g, threads, s, Step(t));
    }
  }

  lemma ReachesOn(g: seq<PS.Adjacency>, threads: nat, s: State, a: Action)
    requires PS.Closed(g) && Reachable(g, threads, s) && Enabled(g, s, a)
    ensures Reachable(g, threads, Exec(g, s, a))
  {
    hide PS.Closed, Enabled, Exec;
    var states :| Run(g, threads, states) && states[|states| - 1] == s;
    var longer := states + [Exec(g, s, a)];
    forall k | 0 < k < |longer| ensures Follows(g, longer[k - 1], longer[k]) {
      if k < |states| { assert Follows(g, states[k - 1], states[k]); }
    }
    assert Run(g, threads, longer);
  }

  /** Without new connections the threads stop, after at most 26 steps each. */
  lemma QuietRunsAreBounded(g: seq<PS.Adjacency>, threads: nat, states: seq<State>)
    requires PS.Closed(g) && Quiet(g, states) && Reachable(g, threads, states[0])
    ensures |states| - 1 <= LONGEST * |states[0].handlers|
  {
    hide PS.Closed, Enabled, Total, Reachable, QuietStep;
    QuietRuns(g, threads, states, |states| - 1, 0, 0);
    TotalAtMost(StepsLeft(), states[0].handlers, LONGEST);
    TotalAtLeast(StepsLeft(), states[|states| - 1].handlers, 0);
  }

  /** No thread can take a step. */
  ghost predicate Settled(g: seq<PS.Adjacency>, s: State) {
    forall t: nat :: !Enabled(g, s, Step(t))
  }

  /**
   Where no thread can go on they are all idle, there is a response for every connection, and every pair has been
   answered as often as it had been asked for.
   */
  lemma EveryRequestIsAnswered(g: seq<PS.Adjacency>, threads: nat, states: seq<State>, i: nat, j: nat)
    requires PS.Closed(g) && Quiet(g, states) && Reachable(g, threads, states[0])
    requires Settled(g, states[|states| - 1])
    ensures var s := states[|states| - 1];
      && (forall t :: 0 <= t < |s.handlers| ==> s.handlers[t].at.Idle?)
      && |s.log| == Connections(states[0]) && Total(Answers(i, j), s.log) == Asked(states[0], i, j)
  {
    hide PS.Closed, Enabled, Total, Reachable, QuietStep;
    var s := states[|states| - 1];
    QuietRuns(g, threads, states, |states| - 1, i, j);
    forall t | 0 <= t < |s.handlers| ensures s.handlers[t].at.Idle? {
      if !s.handlers[t].at.Idle? { ServerTheorems.DeadlockFreedom(g, threads, s, t); }
    }
    TotalAtMost(AtWork(), s.handlers, 0);
    TotalAtMost(WorksOn(i, j), s.handlers, 0);
  }
}
