/** The supervisor and the florists with the queues they share; every method is one step of one thread. */
module Market {
  import opened Wrappers
  import opened BoundedQueue
  import GrowableQueue
  import opened Florists
  import opened FloristMonitor

  datatype Outcome = Sleep | Close | Take(client: nat)

  /** What a florist that holds the mutex does next: wait, close its shop, or take its first client. */
  method Test(queue: ClientQueue<nat>, finished: bool) returns (outcome: Outcome)
    requires queue.Valid()
    modifies queue
    ensures queue.Valid()
    ensures old(queue.Contents()) == [] ==> outcome == (if finished then Close else Sleep) && queue.Contents() == []
    ensures old(queue.Contents()) != [] ==>
      outcome == Take(old(queue.Contents())[0]) && queue.Contents() == old(queue.Contents())[1..]
  {
    hide GrowableQueue.Ring;
    if queue.IsEmpty() && !finished {
      return Sleep;
    }
    if finished && queue.IsEmpty() {
      return Close;
    }
    var client := queue.Dequeue();
    outcome := Take(client.value);
  }

  method MakeQueues(n: nat, cap: nat) returns (made: seq<ClientQueue<nat>>)
    ensures |made| == n
    ensures forall f :: 0 <= f < n ==> fresh(made[f]) && fresh(made[f].line)
    ensures forall f :: 0 <= f < n ==> made[f].Valid() && made[f].cap == cap && made[f].Contents() == []
    ensures forall f, g :: 0 <= f < g < n ==> made[f] != made[g] && made[f].line != made[g].line
  {
    hide GrowableQueue.Ring;
    made := [];
    for i := 0 to n
      invariant |made| == i
      invariant forall f :: 0 <= f < i ==> fresh(made[f]) && fresh(made[f].line)
      invariant forall f :: 0 <= f < i ==> made[f].Valid() && made[f].cap == cap && made[f].Contents() == []
      invariant forall f, g :: 0 <= f < g < i ==> made[f] != made[g] && made[f].line != made[g].line
    {
      var queue := new ClientQueue<nat>(cap);
      made := made + [queue];
    }
  }

  class Market {
    const c: Shop
    const ats: array<FloristAt>
    const served: array<seq<nat>>
    const queues: seq<ClientQueue<nat>>
    var mutex: Option<Process>
    var finished: bool
    var supervisor: SupervisorAt
    var next: nat
    var failed: bool

    ghost function Footprint(): set<object> {
      {this, ats, served} + (set q | q in queues) + (set q | q in queues :: q.line)
    }

    /** One queue per florist, none sharing its slots, each with room for every client. */
    ghost predicate Valid()
      reads Footprint()
    {
      && ats.Length == served.Length == |queues| == |c.florists|
      && (forall f :: 0 <= f < |queues| ==> queues[f].Valid() && queues[f].cap == |c.clients|)
      && (forall f, g :: 0 <= f < g < |queues| ==> queues[f] != queues[g] && queues[f].line != queues[g].line)
    }

    ghost function ThreadAt(f: nat): Thread
      requires Valid() && f < |queues|
      reads Footprint()
    {
      Thread(ats[f], queues[f].Contents(), served[f])
    }

    /** The state the monitor's properties speak about. */
    ghost function View(): (s: State)
      requires Valid()
      reads Footprint()
      ensures |s.threads| == |queues| && forall f :: 0 <= f < |queues| ==> s.threads[f] == ThreadAt(f)
    {
      State(mutex, finished, seq(|queues|, f requires 0 <= f < |queues| && Valid() reads Footprint() => ThreadAt(f)),
            supervisor, next, failed)
    }

    /** A queue and a thread for every florist. */
    constructor (c: Shop)
      ensures fresh(Footprint()) && Valid() && this.c == c && View() == Init(c)
    {
      hide GrowableQueue.Ring;
      this.c := c;
      ats := new FloristAt[|c.florists|](_ => Locking);
      served := new seq<nat>[|c.florists|](_ => []);
      var made := MakeQueues(|c.florists|, |c.clients|);
      queues := made;
      mutex, finished, next, failed := None, false, 0, false;
      supervisor := if |c.clients| > 0 then Finding else Ending;
      new;
      forall f | 0 <= f < |queues| ensures ThreadAt(f) == Thread(Locking, [], []) {
        assert queues[f].Contents() == [];
      }
      assert View().threads == Init(c).threads;
    }

    /** A florist that holds the mutex looks at its queue. */
    method TestStep(f: nat)
      requires Valid() && Enabled(c, View(), Step(FloristNo(f))) && ats[f].Testing?
      modifies Footprint()
      ensures Valid() && View() == Exec(c, old(View()), Step(FloristNo(f)))
    {
      hide GrowableQueue.Ring, FloristFor, Shop.For, Shop.Valid, Woken;
      ghost var s := View();
      var outcome := Test(queues[f], finished);
      match outcome {
        case Sleep =>
          mutex := None;
          ats[f] := Sleeping;
        case Close => ats[f] := Closing;
        case Take(client) => ats[f] := Taken(client);
      }
      assert forall g :: 0 <= g < |queues| && g != f ==> ThreadAt(g) == s.threads[g];
      assert View().threads == s.threads[f := ThreadAt(f)];
    }

    method FloristStep(f: nat)
      requires Valid() && Enabled(c, View(), Step(FloristNo(f)))
      modifies Footprint()
      ensures Valid() && View() == Exec(c, old(View()), Step(FloristNo(f)))
    {
      hide GrowableQueue.Ring, Exec;
      if ats[f].Testing? {
        TestStep(f);
      } else {
        OtherStep(f);
      }
    }

    /** A florist takes or releases the mutex or hands over its flowers. */
    method OtherStep(f: nat)
      requires Valid() && Enabled(c, View(), Step(FloristNo(f))) && !ats[f].Testing?
      modifies Footprint()
      ensures Valid() && View() == Exec(c, old(View()), Step(FloristNo(f)))
    {
      hide GrowableQueue.Ring, FloristFor, Shop.For, Shop.Valid, Woken;
      ghost var s := View();
      match ats[f] {
        case Locking =>
          mutex := Some(FloristNo(f));
          ats[f] := Testing;
        case Closing =>
          mutex := None;
          ats[f] := Closed;
        case Taken(client) =>
          mutex := None;
          ats[f] := Delivering(client);
        case Delivering(client) =>
          served[f] := served[f] + [client];
          ats[f] := Locking;
      }
      assert forall g :: 0 <= g < |queues| && g != f ==> ThreadAt(g) == s.threads[g];
      assert View().threads == s.threads[f := ThreadAt(f)];
    }

    /** Wakes every florist that sleeps. */
    method Broadcast()
      requires Valid()
      modifies ats
      ensures Valid() && View() == old(View()).(threads := Woken(old(View()).threads))
    {
      hide GrowableQueue.Ring, Woken;
      ghost var s := View();
      for f := 0 to ats.Length
        invariant forall g :: 0 <= g < ats.Length ==>
          ats[g] == if g < f && old(ats[g]).Sleeping? then Locking else old(ats[g])
      {
        if ats[f].Sleeping? {
          ats[f] := Locking;
        }
      }
      assert forall g :: 0 <= g < |queues| ==> ThreadAt(g) == s.threads[g].(at := ats[g]);
      assert View().threads == Woken(s.threads);
    }

    /** Client k goes to the end of the queue of florist f, unless that is full. */
    method Put(f: nat, k: nat) returns (ok: bool)
      requires Valid() && f < |queues|
      modifies queues[f], queues[f].line
      ensures Valid() && ok == (|old(ThreadAt(f)).queue| != |c.clients|)
      ensures var s, thread := old(View()), old(ThreadAt(f));
        View() == if ok then s.(threads := s.threads[f := thread.(queue := thread.queue + [k])]) else s
    {
      hide GrowableQueue.Ring;
      ghost var s := View();
      ok := queues[f].Enqueue(k);
      assert forall g :: 0 <= g < |queues| && g != f ==> ThreadAt(g) == s.threads[g];
      assert View().threads == s.threads[f := ThreadAt(f)];
      assert !ok ==> View().threads == s.threads;
    }

    /** The supervisor puts the next client in the queue of florist f. */
    method EnqueueStep(f: nat)
      requires Valid() && Enabled(c, View(), Step(Supervisor)) && supervisor == Enqueuing(f)
      modifies Footprint()
      ensures Valid() && View() == Exec(c, old(View()), Step(Supervisor))
    {
      hide GrowableQueue.Ring, FloristFor, Shop.For, Shop.Valid, Woken;
      assert View().threads[f] == ThreadAt(f);
      var ok := Put(f, next);
      if ok {
        supervisor := Broadcasting;
        next := next + 1;
      } else {
        failed := true;
      }
    }

    /** The supervisor chooses a florist, or wakes all of them. */
    method ChooseOrCall()
      requires Valid() && Enabled(c, View(), Step(Supervisor))
      requires supervisor.Finding? || supervisor.Broadcasting? || supervisor.LastCall?
      modifies Footprint()
      ensures Valid() && View() == Exec(c, old(View()), Step(Supervisor))
    {
      hide GrowableQueue.Ring, Distance, Delivers, Woken;
      if supervisor.Finding? {
        var f := FindFlorist(c.florists, c.clients[next], c.limit);
        NearestIsUnique(c.florists, c.clients[next], c.limit, f, c.For(next));
        supervisor := Requesting(f);
      } else {
        Broadcast();
        supervisor := if supervisor.Broadcasting? then Releasing else Freeing;
      }
    }

    /** The supervisor takes or releases the mutex, raises the flag or joins a florist. */
    method LockOrJoin()
      requires Valid() && Enabled(c, View(), Step(Supervisor))
      requires !supervisor.Finding? && !supervisor.Broadcasting? && !supervisor.LastCall? && !supervisor.Enqueuing?
      modifies Footprint()
      ensures Valid() && View() == Exec(c, old(View()), Step(Supervisor))
    {
      hide GrowableQueue.Ring, FloristFor, Woken;
      ghost var s := View();
      match supervisor {
        case Requesting(f) =>
          mutex := Some(Supervisor);
          supervisor := Enqueuing(f);
        case Releasing =>
          mutex := None;
          supervisor := if next < |c.clients| then Finding else Ending;
        case Ending =>
          mutex := Some(Supervisor);
          supervisor := Flagging;
        case Flagging =>
          finished := true;
          supervisor := LastCall;
        case Freeing =>
          mutex := None;
          supervisor := if |queues| > 0 then Joining(0) else Done;
        case Joining(f) =>
          supervisor := if f + 1 < |queues| then Joining(f + 1) else Done;
      }
      assert View().threads == s.threads;
    }

    method SupervisorStep()
      requires Valid() && Enabled(c, View(), Step(Supervisor))
      modifies Footprint()
      ensures Valid() && View() == Exec(c, old(View()), Step(Supervisor))
    {
      hide GrowableQueue.Ring, Exec;
      if supervisor.Enqueuing? {
        EnqueueStep(supervisor.f);
      } else if supervisor.Finding? || supervisor.Broadcasting? || supervisor.LastCall? {
        ChooseOrCall();
      } else {
        LockOrJoin();
      }
    }

    /** Any enabled action follows the monitor and keeps its invariant; no queue turns out to be full. */
    method Act(a: Action)
      requires Valid() && Inv(c, View()) && Enabled(c, View(), a)
      modifies Footprint()
      ensures Valid() && Inv(c, View()) && View() == Exec(c, old(View()), a) && !failed
    {
      ghost var s := View();
      hide Exec, Enabled, GrowableQueue.Ring;
      StepKeeps(c, s, a);
      assert !Exec(c, s, a).failed;
      hide Inv;
      match a {
        case Step(Supervisor) => SupervisorStep();
        case Step(FloristNo(f)) => FloristStep(f);
        case Spurious(f) => WakeStep(f);
      }
    }

    /** A sleeping florist wakes up for no reason. */
    method WakeStep(f: nat)
      requires Valid() && Enabled(c, View(), Spurious(f))
      modifies Footprint()
      ensures Valid() && View() == Exec(c, old(View()), Spurious(f))
    {
      hide GrowableQueue.Ring, FloristFor, Shop.For, Shop.Valid, Woken;
      ghost var s := View();
      ats[f] := Locking;
      assert forall g :: 0 <= g < |queues| && g != f ==> ThreadAt(g) == s.threads[g];
      assert View().threads == s.threads[f := ThreadAt(f)];
    }
  }
}
