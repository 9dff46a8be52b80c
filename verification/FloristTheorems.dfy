/** What the florist monitor guarantees, for any shop and every run. */
module FloristTheorems {
  import opened Florists
  import opened FloristMonitor
  import opened Tally
  import opened Wrappers

  lemma {:induction false} RunInv(c: Shop, states: seq<State>, actions: seq<Action>, n: nat)
    requires c.Valid() && Run(c, states, actions) && n <= |actions|
    ensures Inv(c, states[n])
  {
    hide Inv, Enabled, Exec;
    if n == 0 {
      InitInv(c);
    } else {
      RunInv(c, states, actions, n - 1);
      assert Follows(c, states[n - 1], actions[n - 1], states[n - 1 + 1]);
      StepKeeps(c, states[n - 1], actions[n - 1]);
    }
  }

  lemma ReachableInv(c: Shop, s: State)
    requires c.Valid() && Reachable(c, s)
    ensures Inv(c, s)
  {
    hide Inv, Follows;
    var states, actions :| Run(c, states, actions) && states[|actions|] == s;
    RunInv(c, states, actions, |actions|);
  }

  // ---------------------------------------------------------------- dispatch

  /** Florist f is assigned exactly the clients for whom it is the nearest seller. */
  lemma {:induction false} AssignedAre(c: Shop, f: nat, n: nat)
    requires c.Valid() && n <= |c.clients|
    ensures forall k: nat :: k in Assigned(c, f, n) <==> (k < n && c.For(k) == f)
  {
    hide FloristFor, Serves, Nearest;
    if n > 0 {
      AssignedAre(c, f, n - 1);
      forall k: nat ensures k in Assigned(c, f, n) <==> (k < n && c.For(k) == f) {
        assert k in Assigned(c, f, n - 1) <==> (k < n - 1 && c.For(k) == f);
      }
    }
  }

  /** They are in order of arrival, so none appears twice. */
  lemma {:induction false} AssignedAscend(c: Shop, f: nat, n: nat)
    requires c.Valid() && n <= |c.clients|
    ensures forall i, j :: 0 <= i < j < |Assigned(c, f, n)| ==> Assigned(c, f, n)[i] < Assigned(c, f, n)[j]
    ensures forall i :: 0 <= i < |Assigned(c, f, n)| ==> Assigned(c, f, n)[i] < n
  {
    hide FloristFor, Serves, Nearest;
    if n > 0 {
      AssignedAscend(c, f, n - 1);
      var before, now := Assigned(c, f, n - 1), Assigned(c, f, n);
      assert forall i :: 0 <= i < |before| ==> now[i] == before[i];
    }
  }

  /** Later arrivals only add at the end. */
  lemma {:induction false} AssignedGrows(c: Shop, f: nat, n: nat, m: nat)
    requires c.Valid() && n <= m <= |c.clients|
    ensures Assigned(c, f, n) <= Assigned(c, f, m)
  {
    hide FloristFor, Serves, Nearest;
    if n < m { AssignedGrows(c, f, n, m - 1); }
  }

  /** Every delivery so far went, in order of arrival, to a client for whom the florist is the nearest seller. */
  lemma {:induction false} ServedInOrder(c: Shop, s: State, f: nat)
    requires c.Valid() && Reachable(c, s) && f < |s.threads|
    ensures s.threads[f].served <= Assigned(c, f, |c.clients|)
    ensures forall k: nat :: k in s.threads[f].served ==>
      (k < |c.clients| && Nearest(c.florists, c.clients[k], c.limit, |c.florists|, f))
  {
    hide Reachable, Exclusive, SupervisorInv, Assigned, Nearest;
    ReachableInv(c, s);
    assert ThreadInv(c, s, f);
    var t := s.threads[f];
    assert t.served <= t.served + Hand(t) + t.queue;
    AssignedGrows(c, f, s.next, |c.clients|);
    AssignedAre(c, f, |c.clients|);
    forall k: nat | k in t.served
      ensures k < |c.clients| && Nearest(c.florists, c.clients[k], c.limit, |c.florists|, f)
    {
      assert k in Assigned(c, f, |c.clients|);
    }
  }

  /** No queue is ever full when the supervisor adds to it. */
  lemma QueuesNeverFull(c: Shop, s: State)
    requires c.Valid() && Reachable(c, s)
    ensures !s.failed
    ensures s.supervisor.Enqueuing? ==>
      s.supervisor.f < |s.threads| && |s.threads[s.supervisor.f].queue| < |c.clients|
  {
    hide Reachable, Exclusive, SupervisorInv, ThreadInv;
    ReachableInv(c, s);
    if s.supervisor.Enqueuing? { EnqueuingFits(c, s); }
  }

  /** No two processes are inside the mutex at once. */
  lemma MutualExclusion(c: Shop, s: State, f: nat, g: nat)
    requires c.Valid() && Reachable(c, s) && f < |s.threads| && g < |s.threads| && HasMutex(s.threads[f].at)
    ensures !SupervisorHasMutex(s.supervisor) && (g != f ==> !HasMutex(s.threads[g].at))
  {
    hide Reachable, SupervisorInv, ThreadInv;
    ReachableInv(c, s);
  }

  /** A florist sleeps only while its queue is empty and more may come, or the call to wake it is due. */
  lemma SleepersMissNothing(c: Shop, s: State, f: nat)
    requires c.Valid() && Reachable(c, s) && f < |s.threads| && s.threads[f].at.Sleeping?
    ensures s.threads[f].queue != [] ==> s.supervisor.Broadcasting?
    ensures s.finished ==> s.supervisor.LastCall?
  {
    hide Reachable, SupervisorInv, Exclusive;
    ReachableInv(c, s);
    assert ThreadInv(c, s, f);
  }

  /** A florist closes only after the last client has arrived and it has served all its own. */
  lemma {:induction false} ClosesWhenAllServed(c: Shop, s: State, f: nat)
    requires c.Valid() && Reachable(c, s) && f < |s.threads| && s.threads[f].at.Closed?
    ensures s.finished && s.threads[f].served == Assigned(c, f, |c.clients|)
  {
    hide Reachable, Exclusive, Assigned;
    ReachableInv(c, s);
    assert ThreadInv(c, s, f);
    assert s.threads[f].served + [] + [] == s.threads[f].served;
  }

  // ---------------------------------------------------------------- progress

  /** Until the supervisor is done somebody can take a real step: no wake-up is lost and nobody deadlocks. */
  lemma DeadlockFreedom(c: Shop, s: State)
    requires c.Valid() && Reachable(c, s) && !s.supervisor.Done?
    ensures exists p :: Enabled(c, s, Step(p))
  {
    hide Reachable, Assigned, FloristFor;
    ReachableInv(c, s);
    if s.mutex.Some? {
      assert Enabled(c, s, Step(s.mutex.value));
    } else if s.supervisor.Joining? {
      var f := s.supervisor.f;
      assert ThreadInv(c, s, f);
      if s.threads[f].at.Closed? {
        assert Enabled(c, s, Step(Supervisor));
      } else {
        assert Enabled(c, s, Step(FloristNo(f)));
      }
    } else {
      assert Enabled(c, s, Step(Supervisor));
    }
  }

  /** At the end every client has been served exactly once, by its nearest seller, in order of arrival. */
  lemma {:induction false} EverybodyServed(c: Shop, s: State, k: nat, f: nat)
    requires c.Valid() && Reachable(c, s) && s.supervisor.Done? && k < |c.clients| && f < |s.threads|
    ensures s.threads[f].at.Closed? && s.threads[f].served == Assigned(c, f, |c.clients|)
    ensures k in s.threads[f].served <==> Nearest(c.florists, c.clients[k], c.limit, |c.florists|, f)
    ensures forall i, j :: 0 <= i < j < |s.threads[f].served| ==> s.threads[f].served[i] < s.threads[f].served[j]
  {
    hide Reachable, Exclusive, Assigned, Nearest, ThreadInv;
    ReachableInv(c, s);
    ClosesWhenAllServed(c, s, f);
    AssignedAscend(c, f, |c.clients|);
    AssignedAre(c, f, |c.clients|);
    if Nearest(c.florists, c.clients[k], c.limit, |c.florists|, f) {
      NearestIsUnique(c.florists, c.clients[k], c.limit, f, c.For(k));
    }
  }

  // ---------------------------------------------------------------- every run ends

  function ThreadRank(): Thread -> int {
    (t: Thread) =>
      4 * |t.queue| +
      match t.at
      case Taken(_) => 7
      case Delivering(_) => 6
      case Locking => 5
      case Testing => 4
      case Closing => 2
      case Sleeping => 1
      case Closed => 0
  }

  /** What the supervisor has ahead of it with the current client, or after the last one. */
  function PhaseRank(at: SupervisorAt, threads: nat): int {
    match at
    case Broadcasting => 9 * threads + 11
    case Releasing => 5 * threads + 10
    case Finding => 5 * threads + 8
    case Requesting(_) => 5 * threads + 7
    case Enqueuing(_) => 5 * threads + 6
    case Ending => 5 * threads + 5
    case Flagging => 5 * threads + 4
    case LastCall => 5 * threads + 3
    case Freeing => threads + 2
    case Joining(f) => threads + 1 - f
    case Done => 0
  }

  function Rank(c: Shop, s: State): int
    requires s.next <= |c.clients|
  {
    (|c.clients| - s.next) * (4 * |s.threads| + 10) + PhaseRank(s.supervisor, |s.threads|)
    + Total(ThreadRank(), s.threads)
  }

  /** A broadcast costs at most one round of the loop per florist. */
  lemma {:induction false} WokenRank(threads: seq<Thread>)
    ensures Total(ThreadRank(), Woken(threads)) <= Total(ThreadRank(), threads) + 4 * |threads|
  {
    if threads != [] { WokenRank(threads[1..]); }
  }

  lemma OneClientLess(left: nat, w: nat)
    requires left > 0
    ensures left * w == (left - 1) * w + w
  {
  }

  lemma SupervisorDescends(c: Shop, s: State)
    requires Inv(c, s) && Enabled(c, s, Step(Supervisor))
    ensures Exec(c, s, Step(Supervisor)).next <= |c.clients|
    ensures Rank(c, Exec(c, s, Step(Supervisor))) < Rank(c, s)
  {
    hide Total, Woken, Assigned, FloristFor, Serves, Nearest, Exclusive, SupervisorInv, ThreadInv;
    var s' := Exec(c, s, Step(Supervisor));
    WokenRank(s.threads);
    match s.supervisor
    case Finding =>
    case Requesting(_) =>
    case Enqueuing(f) =>
      EnqueuingFits(c, s);
      TotalUpdate(ThreadRank(), s.threads, f, s'.threads[f]);
      OneClientLess(|c.clients| - s.next, 4 * |s.threads| + 10);
    case Broadcasting =>
    case Releasing =>
    case Ending =>
    case Flagging =>
    case LastCall =>
    case Freeing =>
    case Joining(_) =>
  }

  lemma FloristDescends(c: Shop, s: State, f: nat)
    requires Inv(c, s) && Enabled(c, s, Step(FloristNo(f)))
    ensures Exec(c, s, Step(FloristNo(f))).next <= |c.clients|
    ensures Rank(c, Exec(c, s, Step(FloristNo(f)))) < Rank(c, s)
  {
    hide Total, Woken, Assigned, FloristFor, Serves, Nearest, Exclusive, SupervisorInv, ThreadInv;
    TotalUpdate(ThreadRank(), s.threads, f, Exec(c, s, Step(FloristNo(f))).threads[f]);
  }

  lemma SpuriousCost(c: Shop, s: State, f: nat)
    requires Inv(c, s) && Enabled(c, s, Spurious(f))
    ensures Exec(c, s, Spurious(f)).next <= |c.clients| && Rank(c, Exec(c, s, Spurious(f))) == Rank(c, s) + 4
  {
    hide Total, Woken, Assigned, FloristFor, Serves, Nearest, Exclusive, SupervisorInv, ThreadInv;
    TotalUpdate(ThreadRank(), s.threads, f, Exec(c, s, Spurious(f)).threads[f]);
  }

  /** How many wake-ups happened for no reason. */
  function Wakeups(actions: seq<Action>): nat {
    if actions == [] then 0
    else Wakeups(actions[..|actions| - 1]) + if actions[|actions| - 1].Spurious? then 1 else 0
  }

  /** At most this many steps, apart from those that follow a wake-up for no reason. */
  function Budget(c: Shop): nat { |c.clients| * (4 * |c.florists| + 10) + 10 * |c.florists| + 8 }

  lemma {:induction false} RunDescends(c: Shop, states: seq<State>, actions: seq<Action>, n: nat)
    requires c.Valid() && Run(c, states, actions) && n <= |actions|
    ensures states[n].next <= |c.clients|
    ensures Rank(c, states[n]) + n <= Budget(c) + 5 * Wakeups(actions[..n])
  {
    hide Inv, Enabled, Exec, Rank;
    if n == 0 {
      InitRank(c);
    } else {
      RunDescends(c, states, actions, n - 1);
      RunInv(c, states, actions, n - 1);
      var s, a := states[n - 1], actions[n - 1];
      assert Follows(c, s, a, states[n - 1 + 1]);
      assert actions[..n][..n - 1] == actions[..n - 1];
      match a
      case Step(Supervisor) => SupervisorDescends(c, s);
      case Step(FloristNo(f)) => FloristDescends(c, s, f);
      case Spurious(f) => SpuriousCost(c, s, f);
    }
  }

  lemma InitRank(c: Shop)
    ensures Rank(c, Init(c)) <= Budget(c)
  {
    TotalAtMost(ThreadRank(), Init(c).threads, 5);
  }

  lemma RankIsNatural(c: Shop, s: State)
    requires Inv(c, s)
    ensures Rank(c, s) >= 0
  {
    hide Total, Woken, Assigned, FloristFor, Serves, Nearest, Exclusive, SupervisorInv, ThreadInv;
    TotalAtLeast(ThreadRank(), s.threads, 0);
  }

  /**
   Whatever the scheduler does, a run has a bounded number of steps but for needless wake-ups, and where
   no process can step the supervisor is done: all florists have closed and been joined.
   */
  lemma {:induction false} EveryRunCompletes(c: Shop, states: seq<State>, actions: seq<Action>)
    requires c.Valid() && Run(c, states, actions)
    ensures |actions| <= Budget(c) + 5 * Wakeups(actions)
    ensures (!exists p :: Enabled(c, states[|actions|], Step(p))) ==> states[|actions|].supervisor.Done?
  {
    hide Inv, Enabled, Follows, Rank, Budget;
    var s := states[|actions|];
    RunDescends(c, states, actions, |actions|);
    RunInv(c, states, actions, |actions|);
    RankIsNatural(c, s);
    assert actions[..|actions|] == actions;
    if !s.supervisor.Done? {
      assert Reachable(c, s);
      DeadlockFreedom(c, s);
    }
  }
}
