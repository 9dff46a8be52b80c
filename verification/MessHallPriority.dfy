/**
 When an undergraduate can be served while a graduate waits: the supervisor never issues a permit past a
 waiting graduate, but a permit that is out is not taken back when a graduate registers.
 */
module MessHallPriority {
  import opened Rooms
  import opened Tally
  import opened MessHall
  import opened MessHallInvariant
  import opened MessHallSteps

  /** Undergraduates that are taking their plates. */
  function UndergraduateCollecting(): Student -> int {
    (x: Student) => Bit(!x.graduate && x.at.Collecting?)
  }

  /** Undergraduate permits issued and not yet used up. */
  function PermitsOut(s: State): int
    requires |s.sFull| == 2
  {
    s.sFull[0] + Bit(s.supervisor == Admitting(false)) + Total(UndergraduateCollecting(), s.students)
  }

  /** A registered graduate has no permit while an undergraduate permit is out. */
  predicate Overtaking(s: State)
    requires |s.sFull| == 2
  {
    s.graduates > 0 && PermitsOut(s) > 0
  }

  /** Student j is a graduate that registers while an undergraduate permit is out. */
  predicate Provokes(c: Config, s: State, p: Process) {
    && Enabled(c, s, p) && p.StudentNo? && s.students[p.j].graduate && s.students[p.j].at.Registering?
    && PermitsOut(s) > 0
  }

  /** `graduates` is the number of registered graduates for whom no permit is out. */
  lemma OvertakingMeans(c: Config, s: State)
    requires c.Valid() && Inv(c, s)
    ensures Overtaking(s) <==>
      Total(GraduateOpen(), s.students) > s.sFull[1] + Bit(s.supervisor == Admitting(true)) && PermitsOut(s) > 0
  {
    hide Total, KindInv, KitchenInv, RotaInv, DepartureInv, CooksInv, Config.Valid;
  }

  /** What a step of a student does to the registrations and the undergraduate permits. */
  lemma StudentMovesOn(c: Config, s: State, j: nat)
    requires Enabled(c, s, StudentNo(j)) && !Exec(c, s, StudentNo(j)).failed
    ensures var s' := Exec(c, s, StudentNo(j));
      && |s'.sFull| == 2
      && s'.graduates == s.graduates + Bit(s.students[j].graduate && s.students[j].at.Registering?)
      && PermitsOut(s') == PermitsOut(s) - Bit(!s.students[j].graduate && s.students[j].at.Collecting?)
  {
    hide Total, Next, TakeThree, Config.Quota, Config.KitchenSize;
    TotalUpdate(UndergraduateCollecting(), s.students, j, StudentStep(c, s, j).students[j]);
    match s.students[j].at
    case Registering =>
    case Lining =>
    case Hoping =>
    case Collecting =>
    case Seating =>
    case Eating =>
    case Standing =>
  }

  /** The supervisor takes a waiting graduate off the count, or issues an undergraduate permit if there is none. */
  lemma SupervisorMovesOn(c: Config, s: State)
    requires Enabled(c, s, Supervisor)
    ensures var s' := SupervisorStep(c, s);
      && |s'.sFull| == 2
      && s'.graduates == s.graduates - Bit(s.supervisor.Choosing? && s.graduates != 0)
      && PermitsOut(s') == PermitsOut(s) + Bit(s.supervisor.Choosing? && s.graduates == 0)
  {
    hide Total, Config.Quota, Config.KitchenSize;
    match s.supervisor
    case Gathering(k) =>
    case Calling =>
    case Choosing =>
    case Admitting(graduate) =>
  }

  /** Supplier and cooks do nothing to them. */
  lemma KitchenMovesOn(c: Config, s: State, p: Process)
    requires Enabled(c, s, p) && (p.Supplier? || p.CookNo?)
    ensures var s' := Exec(c, s, p);
      s'.sFull == s.sFull && s'.graduates == s.graduates && s'.supervisor == s.supervisor && s'.students == s.students
  {
    hide Total, Next, Config.Quota, Config.KitchenSize;
    if p.CookNo? {
      match s.cooks[p.i].at
      case Looping =>
      case Picking =>
      case Waiting(f) =>
      case Searching(f) =>
      case Returning(f) =>
      case Leaving(f) =>
      case Queuing(f) =>
      case Serving(f) =>
      case Announcing(f) =>
      case Departing(next) =>
    }
  }

  lemma OthersMoveOn(c: Config, s: State, p: Process)
    requires Enabled(c, s, p) && !p.StudentNo? && |s.sFull| == 2
    ensures var s' := Exec(c, s, p);
      && |s'.sFull| == 2
      && s'.graduates == s.graduates - Bit(p == Supervisor && s.supervisor.Choosing? && s.graduates != 0)
      && PermitsOut(s') == PermitsOut(s) + Bit(p == Supervisor && s.supervisor.Choosing? && s.graduates == 0)
  {
    if p.Supervisor? { SupervisorMovesOn(c, s); } else { KitchenMovesOn(c, s, p); }
    hide SupervisorStep, SupplierStep, CookStep, Total;
  }

  /** Overtaking begins exactly when a graduate registers while an undergraduate permit is out. */
  lemma OvertakingBegins(c: Config, s: State, p: Process)
    requires c.Valid() && Inv(c, s) && Enabled(c, s, p) && !Overtaking(s)
    ensures |Exec(c, s, p).sFull| == 2
    ensures Overtaking(Exec(c, s, p)) <==> Provokes(c, s, p)
  {
    GraduatesCounted(c, s);
    Stays(c, s, p);
    hide Inv, Exec, Enabled, PermitsOut, Total, Config.Valid;
    if p.StudentNo? { StudentMovesOn(c, s, p.j); } else { OthersMoveOn(c, s, p); }
  }

  lemma Stays(c: Config, s: State, p: Process)
    requires c.Valid() && Inv(c, s) && Enabled(c, s, p)
    ensures !Exec(c, s, p).failed
  {
    StepKeeps(c, s, p);
    hide Exec, Enabled, KindInv, KitchenInv, PermitsInv, RotaInv, DepartureInv, CooksInv, Config.Valid;
  }

  lemma GraduatesCounted(c: Config, s: State)
    requires Inv(c, s)
    ensures s.graduates >= 0 && |s.sFull| == 2 && PermitsOut(s) >= 0
  {
    hide Total, KindInv, KitchenInv, PermitsInv, RotaInv, DepartureInv, CooksInv;
    TotalAtLeast(UndergraduateCollecting(), s.students, 0);
  }

  /** In a run an undergraduate permit is out past a waiting graduate at some time exactly if a step provoked it. */
  lemma RunOvertakes(c: Config, states: seq<State>, steps: seq<Process>)
    requires c.Valid() && Run(c, states) && |steps| == |states| - 1
    requires forall k :: 0 <= k < |steps| ==>
      Enabled(c, states[k], steps[k]) && states[k + 1] == Exec(c, states[k], steps[k])
    ensures forall k :: 0 <= k < |states| ==> |states[k].sFull| == 2
    ensures (exists k :: 0 <= k < |states| && Overtaking(states[k]))
       <==> (exists k :: 0 <= k < |steps| && Provokes(c, states[k], steps[k]))
  {
    RunInv(c, states);
    hide Inv, Exec, Enabled, Overtaking, Provokes, Run, Config.Valid;
    forall k | 0 <= k < |states| ensures |states[k].sFull| == 2 { GraduatesCounted(c, states[k]); }
    if k :| 0 <= k < |states| && Overtaking(states[k]) {
      StartsFair(c);
      FirstProvocation(c, states, steps, k);
    }
    if k :| 0 <= k < |steps| && Provokes(c, states[k], steps[k]) {
      ProvocationOvertakes(c, states[k], steps[k]);
      assert Overtaking(states[k + 1]);
    }
  }

  lemma StartsFair(c: Config)
    ensures |Init(c).sFull| == 2 && !Overtaking(Init(c))
  {
  }

  lemma ProvocationOvertakes(c: Config, s: State, p: Process)
    requires c.Valid() && Inv(c, s) && Provokes(c, s, p)
    ensures |Exec(c, s, p).sFull| == 2 && Overtaking(Exec(c, s, p))
  {
    GraduatesCounted(c, s);
    Stays(c, s, p);
    hide Inv, Exec, Enabled, PermitsOut, Total, Config.Valid;
    StudentMovesOn(c, s, p.j);
  }

  lemma {:induction false} FirstProvocation(c: Config, states: seq<State>, steps: seq<Process>, k: nat)
    requires c.Valid() && |steps| == |states| - 1 && k < |states| && states[0] == Init(c)
    requires forall i :: 0 <= i < |states| ==> Inv(c, states[i]) && |states[i].sFull| == 2
    requires forall i :: 0 <= i < |steps| ==>
      Enabled(c, states[i], steps[i]) && states[i + 1] == Exec(c, states[i], steps[i])
    requires Overtaking(states[k])
    ensures exists i :: 0 <= i < |steps| && Provokes(c, states[i], steps[i])
  {
    hide Inv, Exec, Enabled, Overtaking, Provokes, Config.Valid;
    StartsFair(c);
    if Overtaking(states[k - 1]) {
      FirstProvocation(c, states, steps, k - 1);
    } else {
      OvertakingBegins(c, states[k - 1], steps[k - 1]);
    }
  }
}
