/**
 The supervisor and its florist threads around one mutex and one condition variable. One step per lock
 operation or guarded access; waiting florists may also wake up for no reason.
 */
module FloristMonitor {
  import opened Florists
  import opened Wrappers

  /** The data file, and the largest float. */
  datatype Shop = Shop(florists: seq<Florist>, clients: seq<Client>, limit: real) {
    /** Every ordered flower is sold by somebody near enough. */
    ghost predicate Valid() {
      forall k :: 0 <= k < |clients| ==> exists i :: Serves(florists, clients[k], limit, i)
    }

    ghost function For(k: nat): nat
      requires Valid() && k < |clients|
    {
      FloristFor(florists, clients[k], limit)
    }
  }

  datatype FloristAt =
    | Locking                  // about to take the mutex, at the loop head or on waking
    | Testing                  // holds it, about to test the queue and the flag
    | Sleeping                 // in the wait, which released the mutex
    | Closing                  // holds it, about to release it for good
    | Taken(client: nat)       // holds it and a client, about to release it
    | Delivering(client: nat)  // on the way to the client
    | Closed

  /** A florist thread with its queue and the clients it has served, in order. */
  datatype Thread = Thread(at: FloristAt, queue: seq<nat>, served: seq<nat>)

  datatype SupervisorAt =
    | Finding                  // about to choose the florist of the next client
    | Requesting(f: nat)       // about to take the mutex for florist f
    | Enqueuing(f: nat)
    | Broadcasting
    | Releasing
    | Ending                   // about to take the mutex for the last time
    | Flagging                 // about to set the flag
    | LastCall                 // about to broadcast
    | Freeing                  // about to release the mutex
    | Joining(f: nat)          // waiting for florist f
    | Done

  datatype Process = Supervisor | FloristNo(f: nat)

  datatype State = State(mutex: Option<Process>, finished: bool, threads: seq<Thread>,
                         supervisor: SupervisorAt, next: nat, failed: bool)

  datatype Action = Step(p: Process) | Spurious(f: nat)

  function Init(c: Shop): State {
    State(None, false, seq(|c.florists|, f => Thread(Locking, [], [])),
          if |c.clients| > 0 then Finding else Ending, 0, false)
  }

  predicate Shaped(c: Shop, s: State) {
    && |s.threads| == |c.florists| && s.next <= |c.clients|
    && (s.supervisor.Finding? || s.supervisor.Requesting? || s.supervisor.Enqueuing? ==> s.next < |c.clients|)
    && (s.supervisor.Requesting? || s.supervisor.Enqueuing? || s.supervisor.Joining? ==>
        s.supervisor.f < |s.threads|)
  }

  ghost predicate Enabled(c: Shop, s: State, a: Action) {
    && c.Valid() && Shaped(c, s) && !s.failed
    && match a
       case Step(Supervisor) =>
         (match s.supervisor
          case Requesting(_) => s.mutex == None
          case Ending => s.mutex == None
          case Joining(f) => s.threads[f].at.Closed?
          case Done => false
          case _ => true)
       case Step(FloristNo(f)) =>
         && f < |s.threads| && !s.threads[f].at.Closed? && !s.threads[f].at.Sleeping?
         && (s.threads[f].at.Locking? ==> s.mutex == None)
       case Spurious(f) => f < |s.threads| && s.threads[f].at.Sleeping?
  }

  ghost function Exec(c: Shop, s: State, a: Action): State
    requires Enabled(c, s, a)
  {
    match a
    case Step(Supervisor) => SupervisorStep(c, s)
    case Step(FloristNo(f)) => FloristStep(c, s, f)
    case Spurious(f) => Goes(s, f, Locking)
  }

  function Goes(s: State, f: nat, at: FloristAt): State
    requires f < |s.threads|
  {
    s.(threads := s.threads[f := s.threads[f].(at := at)])
  }

  /** A broadcast: every sleeper heads back for the mutex. */
  function Woken(threads: seq<Thread>): (r: seq<Thread>)
    ensures |r| == |threads|
    ensures forall f :: 0 <= f < |r| ==>
      r[f] == if threads[f].at.Sleeping? then threads[f].(at := Locking) else threads[f]
  {
    if threads == [] then []
    else [if threads[0].at.Sleeping? then threads[0].(at := Locking) else threads[0]] + Woken(threads[1..])
  }

  ghost function SupervisorStep(c: Shop, s: State): State
    requires Enabled(c, s, Step(Supervisor))
  {
    match s.supervisor
    case Finding => s.(supervisor := Requesting(c.For(s.next)))
    case Requesting(f) => s.(supervisor := Enqueuing(f), mutex := Some(Supervisor))
    case Enqueuing(f) =>
      var thread := s.threads[f];
      if |thread.queue| == |c.clients| then s.(failed := true)
      else s.(supervisor := Broadcasting, next := s.next + 1,
              threads := s.threads[f := thread.(queue := thread.queue + [s.next])])
    case Broadcasting => s.(supervisor := Releasing, threads := Woken(s.threads))
    case Releasing => s.(supervisor := if s.next < |c.clients| then Finding else Ending, mutex := None)
    case Ending => s.(supervisor := Flagging, mutex := Some(Supervisor))
    case Flagging => s.(supervisor := LastCall, finished := true)
    case LastCall => s.(supervisor := Freeing, threads := Woken(s.threads))
    case Freeing => s.(supervisor := if |s.threads| > 0 then Joining(0) else Done, mutex := None)
    case Joining(f) => s.(supervisor := if f + 1 < |s.threads| then Joining(f + 1) else Done)
  }

  ghost function FloristStep(c: Shop, s: State, f: nat): State
    requires Enabled(c, s, Step(FloristNo(f)))
  {
    var thread := s.threads[f];
    match thread.at
    case Locking => Goes(s, f, Testing).(mutex := Some(FloristNo(f)))
    case Testing =>
      if thread.queue == [] && !s.finished then Goes(s, f, Sleeping).(mutex := None)
      else if thread.queue == [] then Goes(s, f, Closing)
      else s.(threads := s.threads[f := Thread(Taken(thread.queue[0]), thread.queue[1..], thread.served)])
    case Closing => Goes(s, f, Closed).(mutex := None)
    case Taken(client) => Goes(s, f, Delivering(client)).(mutex := None)
    case Delivering(client) =>
      s.(threads := s.threads[f := Thread(Locking, thread.queue, thread.served + [client])])
  }

  /** A finite run: states[0] is initial and states[k + 1] follows from states[k] by actions[k]. */
  ghost predicate Run(c: Shop, states: seq<State>, actions: seq<Action>) {
    && |states| == |actions| + 1 && states[0] == Init(c)
    && forall k :: 0 <= k < |actions| ==> Follows(c, states[k], actions[k], states[k + 1])
  }

  ghost predicate Follows(c: Shop, s: State, a: Action, s': State) {
    Enabled(c, s, a) && s' == Exec(c, s, a)
  }

  ghost predicate Reachable(c: Shop, s: State) {
    exists states, actions :: Run(c, states, actions) && states[|actions|] == s
  }

  // ---------------------------------------------------------------- the invariant

  /** The clients among the first n that go to florist f, in order of arrival. */
  ghost function Assigned(c: Shop, f: nat, n: nat): seq<nat>
    requires c.Valid() && n <= |c.clients|
  {
    if n == 0 then [] else Assigned(c, f, n - 1) + if c.For(n - 1) == f then [n - 1] else []
  }

  predicate HasMutex(at: FloristAt) { at.Testing? || at.Closing? || at.Taken? }

  predicate SupervisorHasMutex(at: SupervisorAt) {
    at.Enqueuing? || at.Broadcasting? || at.Releasing? || at.Flagging? || at.LastCall? || at.Freeing?
  }

  ghost predicate Exclusive(s: State) {
    && (SupervisorHasMutex(s.supervisor) <==> s.mutex == Some(Supervisor))
    && (forall f :: 0 <= f < |s.threads| ==> (HasMutex(s.threads[f].at) <==> s.mutex == Some(FloristNo(f))))
    && (s.mutex.Some? && s.mutex.value.FloristNo? ==> s.mutex.value.f < |s.threads|)
  }

  function Hand(thread: Thread): seq<nat> {
    match thread.at
    case Taken(client) => [client]
    case Delivering(client) => [client]
    case _ => []
  }

  /** Florist f's clients: those served, the one being served and those waiting are those assigned so far. */
  ghost predicate Accounted(c: Shop, s: State, f: nat)
    requires c.Valid() && Shaped(c, s) && f < |s.threads|
  {
    s.threads[f].served + Hand(s.threads[f]) + s.threads[f].queue == Assigned(c, f, s.next)
  }

  /** A sleeper has nothing to do, unless the call that will wake it is on its way. */
  predicate NoLostWakeup(s: State, thread: Thread) {
    thread.at.Sleeping? ==>
      && (thread.queue == [] || s.supervisor.Broadcasting?)
      && (!s.finished || s.supervisor.LastCall?)
  }

  predicate ClosesRightly(s: State, thread: Thread) {
    thread.at.Closing? || thread.at.Closed? ==> s.finished && thread.queue == []
  }

  ghost predicate SupervisorInv(c: Shop, s: State)
    requires c.Valid() && Shaped(c, s)
  {
    && (s.finished <==> s.supervisor.LastCall? || s.supervisor.Freeing? || s.supervisor.Joining? || s.supervisor.Done?)
    && (s.finished || s.supervisor.Ending? || s.supervisor.Flagging? ==> s.next == |c.clients|)
    && (s.supervisor.Requesting? || s.supervisor.Enqueuing? ==> s.supervisor.f == c.For(s.next))
    && (s.supervisor.Joining? ==> forall f :: 0 <= f < s.supervisor.f ==> s.threads[f].at.Closed?)
    && (s.supervisor.Done? ==> forall f :: 0 <= f < |s.threads| ==> s.threads[f].at.Closed?)
  }

  ghost predicate ThreadInv(c: Shop, s: State, f: nat)
    requires c.Valid() && Shaped(c, s) && f < |s.threads|
  {
    Accounted(c, s, f) && NoLostWakeup(s, s.threads[f]) && ClosesRightly(s, s.threads[f])
  }

  ghost predicate Inv(c: Shop, s: State) {
    && c.Valid() && Shaped(c, s) && !s.failed && Exclusive(s) && SupervisorInv(c, s)
    && forall f :: 0 <= f < |s.threads| ==> ThreadInv(c, s, f)
  }

  // ---------------------------------------------------------------- every step keeps it

  lemma InitInv(c: Shop)
    requires c.Valid()
    ensures Inv(c, Init(c))
  {
  }

  /** What is assigned: no more than has arrived. */
  lemma {:induction false} AssignedFits(c: Shop, f: nat, n: nat)
    requires c.Valid() && n <= |c.clients|
    ensures |Assigned(c, f, n)| <= n
  {
    hide FloristFor, Serves, Nearest;
    if n > 0 { AssignedFits(c, f, n - 1); }
  }

  /** The supervisor moves no thread in or out of the mutex, and closes none. */
  lemma SupervisorSpares(c: Shop, s: State, f: nat)
    requires Inv(c, s) && Enabled(c, s, Step(Supervisor)) && f < |s.threads|
    ensures |Exec(c, s, Step(Supervisor)).threads| == |s.threads|
    ensures HasMutex(Exec(c, s, Step(Supervisor)).threads[f].at) <==> HasMutex(s.threads[f].at)
    ensures Exec(c, s, Step(Supervisor)).threads[f].at.Closed? <==> s.threads[f].at.Closed?
  {
    hide Assigned, FloristFor, ThreadInv, Exclusive, Woken;
  }

  lemma SupervisorKeepsMutex(c: Shop, s: State)
    requires Inv(c, s) && Enabled(c, s, Step(Supervisor))
    ensures Exclusive(Exec(c, s, Step(Supervisor)))
  {
    hide Assigned, FloristFor, ThreadInv, Woken;
    forall f | 0 <= f < |s.threads|
      ensures HasMutex(Exec(c, s, Step(Supervisor)).threads[f].at) <==> HasMutex(s.threads[f].at)
    {
      SupervisorSpares(c, s, f);
    }
  }

  lemma SupervisorKeepsPhase(c: Shop, s: State)
    requires Inv(c, s) && Enabled(c, s, Step(Supervisor))
    ensures var s' := Exec(c, s, Step(Supervisor)); Shaped(c, s') && SupervisorInv(c, s')
  {
    hide Assigned, FloristFor, ThreadInv, Exclusive, Woken;
    forall f | 0 <= f < |s.threads|
      ensures Exec(c, s, Step(Supervisor)).threads[f].at.Closed? <==> s.threads[f].at.Closed?
    {
      SupervisorSpares(c, s, f);
    }
  }

  lemma SupervisorKeepsThread(c: Shop, s: State, f: nat)
    requires Inv(c, s) && Enabled(c, s, Step(Supervisor)) && f < |s.threads| && !s.supervisor.Enqueuing?
    requires Shaped(c, Exec(c, s, Step(Supervisor)))
    ensures ThreadInv(c, Exec(c, s, Step(Supervisor)), f)
  {
    hide Assigned, FloristFor, Exclusive;
    assert ThreadInv(c, s, f);
  }

  lemma Pushed(served: seq<nat>, hand: seq<nat>, queue: seq<nat>, x: nat)
    ensures |queue| <= |served + hand + queue|
    ensures served + hand + (queue + [x]) == (served + hand + queue) + [x]
  {
  }

  /** The chosen florist's queue has room, since it holds fewer clients than have arrived. */
  lemma EnqueuingFits(c: Shop, s: State)
    requires Inv(c, s) && Enabled(c, s, Step(Supervisor)) && s.supervisor.Enqueuing?
    ensures |s.threads[s.supervisor.f].queue| < |c.clients|
  {
    hide FloristFor, Exclusive, Assigned;
    var k := s.supervisor.f;
    assert ThreadInv(c, s, k);
    AssignedFits(c, k, s.next);
    Pushed(s.threads[k].served, Hand(s.threads[k]), s.threads[k].queue, 0);
  }

  lemma EnqueuingKeepsThread(c: Shop, s: State, f: nat)
    requires Inv(c, s) && Enabled(c, s, Step(Supervisor)) && f < |s.threads| && s.supervisor.Enqueuing?
    requires Shaped(c, Exec(c, s, Step(Supervisor)))
    ensures var s' := Exec(c, s, Step(Supervisor)); !s'.failed && ThreadInv(c, s', f)
  {
    hide FloristFor, Exclusive;
    EnqueuingFits(c, s);
    assert ThreadInv(c, s, f);
    Pushed(s.threads[f].served, Hand(s.threads[f]), s.threads[f].queue, s.next);
  }

  lemma SupervisorKeeps(c: Shop, s: State)
    requires Inv(c, s) && Enabled(c, s, Step(Supervisor))
    ensures Inv(c, Exec(c, s, Step(Supervisor)))
  {
    hide ThreadInv, Exclusive, SupervisorInv, FloristFor;
    SupervisorKeepsMutex(c, s);
    SupervisorKeepsPhase(c, s);
    var s' := Exec(c, s, Step(Supervisor));
    forall f | 0 <= f < |s.threads| ensures ThreadInv(c, s', f) {
      if s.supervisor.Enqueuing? { EnqueuingKeepsThread(c, s, f); } else { SupervisorKeepsThread(c, s, f); }
    }
    if s.supervisor.Enqueuing? { EnqueuingKeepsThread(c, s, s.supervisor.f); }
  }

  /** A florist changes nothing but itself and the mutex. */
  lemma FloristSpares(c: Shop, s: State, f: nat)
    requires Enabled(c, s, Step(FloristNo(f)))
    ensures var s' := Exec(c, s, Step(FloristNo(f)));
      |s'.threads| == |s.threads| && s' == s.(threads := s.threads[f := s'.threads[f]], mutex := s'.mutex)
  {
    hide FloristFor, Shaped;
  }

  lemma FloristKeepsMutex(c: Shop, s: State, f: nat)
    requires Inv(c, s) && Enabled(c, s, Step(FloristNo(f)))
    ensures Exclusive(Exec(c, s, Step(FloristNo(f))))
  {
    hide Assigned, FloristFor, ThreadInv, SupervisorInv;
  }

  lemma FloristKeepsPhase(c: Shop, s: State, f: nat)
    requires Inv(c, s) && Enabled(c, s, Step(FloristNo(f)))
    ensures var s' := Exec(c, s, Step(FloristNo(f))); Shaped(c, s') && SupervisorInv(c, s')
  {
    hide Assigned, FloristFor, ThreadInv, Exclusive, Exec;
    FloristSpares(c, s, f);
  }

  lemma HandedOver(served: seq<nat>, queue: seq<nat>)
    ensures queue != [] ==> served + [] + queue == served + [queue[0]] + queue[1..]
    ensures forall x :: (served + [x]) + [] + queue == served + [x] + queue
  {
  }

  lemma FloristKeepsThread(c: Shop, s: State, f: nat)
    requires Inv(c, s) && Enabled(c, s, Step(FloristNo(f))) && Shaped(c, Exec(c, s, Step(FloristNo(f))))
    ensures ThreadInv(c, Exec(c, s, Step(FloristNo(f))), f)
  {
    hide Assigned, FloristFor, Exclusive, SupervisorInv;
    assert ThreadInv(c, s, f);
    HandedOver(s.threads[f].served, s.threads[f].queue);
  }

  lemma FloristKeeps(c: Shop, s: State, f: nat)
    requires Inv(c, s) && Enabled(c, s, Step(FloristNo(f)))
    ensures Inv(c, Exec(c, s, Step(FloristNo(f))))
  {
    hide Assigned, FloristFor, Exclusive, SupervisorInv;
    var s' := Exec(c, s, Step(FloristNo(f)));
    FloristKeepsMutex(c, s, f);
    FloristKeepsPhase(c, s, f);
    forall g | 0 <= g < |s.threads| ensures ThreadInv(c, s', g) {
      if g == f { FloristKeepsThread(c, s, f); } else { assert ThreadInv(c, s, g); }
    }
  }

  lemma SpuriousKeeps(c: Shop, s: State, f: nat)
    requires Inv(c, s) && Enabled(c, s, Spurious(f))
    ensures Inv(c, Exec(c, s, Spurious(f)))
  {
    hide Assigned, FloristFor;
    var s' := Exec(c, s, Spurious(f));
    forall g | 0 <= g < |s.threads| ensures ThreadInv(c, s', g) {
      assert ThreadInv(c, s, g);
    }
  }

  lemma StepKeeps(c: Shop, s: State, a: Action)
    requires Inv(c, s) && Enabled(c, s, a)
    ensures Inv(c, Exec(c, s, a))
  {
    hide Inv, Enabled, Exec;
    match a
    case Step(Supervisor) => SupervisorKeeps(c, s);
    case Step(FloristNo(f)) => FloristKeeps(c, s, f);
    case Spurious(f) => SpuriousKeeps(c, s, f);
  }
}
