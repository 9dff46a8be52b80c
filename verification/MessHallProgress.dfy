/**
 How long the mess hall can run. Every step brings the end nearer, except a cook's search of the kitchen
 that finds nothing, which only happens once a cook has gone home and posted surplus tokens.
 */
module MessHallProgress {
  import opened Rooms
  import opened Tally
  import opened MessHall
  import opened MessHallInvariant
  import opened MessHallSteps
  import opened MessHallTheorems

  /** Steps a cook has ahead of it in this round of its loop. */
  function CookSteps(at: CookAt): int {
    match at
    case Leaving(_) => 12
    case Queuing(_) => 11
    case Serving(_) => 10
    case Announcing(_) => 9
    case Returning(_) => 9
    case Looping => 8
    case Picking => 7
    case Waiting(_) => 6
    case Searching(_) => 5
    case Departing(next) => 3 - next
    case CookHome => 0
  }

  function CookRank(): Cook -> int { (k: Cook) => CookSteps(k.at) }

  /** Steps a student has ahead of it. */
  function StudentSteps(L: nat, x: Student): int {
    7 * (L - x.round) +
    match x.at
    case Registering => 6
    case Lining => 5
    case Hoping => 4
    case Collecting => 3
    case Seating => 2
    case Eating => 1
    case Standing => 0
    case StudentHome => 0
  }

  function StudentRank(L: nat): Student -> int { (x: Student) => StudentSteps(L, x) }

  function SupplierRank(c: Config, s: State): int {
    4 * (|c.supply| - s.sent) +
    match s.supplier
    case AwaitingSlot => 3
    case Storing => 2
    case Signalling => 1
    case SupplierHome => 0
  }

  function SupervisorRank(c: Config, s: State): int {
    8 * (c.Quota() - s.served) +
    match s.supervisor
    case Gathering(next) => 6 - next
    case Calling => 3
    case Choosing => 2
    case Admitting(_) => 1
    case SupervisorHome => 0
  }

  function Rank(c: Config, s: State): int {
    SupplierRank(c, s) + SupervisorRank(c, s) + 8 * s.plates
    + Total(CookRank(), s.cooks) + Total(StudentRank(c.L), s.students)
  }

  /** A cook with a token that is about to search the kitchen in vain. */
  predicate Fruitless(s: State, p: Process) {
    p.CookNo? && p.i < |s.cooks| && s.cooks[p.i].at.Searching? && Next(s.kitchen, s.cooks[p.i].at.food) == -1
  }

  lemma SupplierDescends(c: Config, s: State)
    requires Enabled(c, s, Supplier) && !Exec(c, s, Supplier).failed
    ensures Rank(c, Exec(c, s, Supplier)) < Rank(c, s)
  {
    hide Total, Next, Config.Quota;
  }

  lemma SupervisorDescends(c: Config, s: State)
    requires Enabled(c, s, Supervisor)
    ensures Rank(c, Exec(c, s, Supervisor)) < Rank(c, s)
  {
    hide Total, Next, Config.Quota;
  }

  /** A student's step leaves everybody else where they are. */
  lemma StudentSpares(c: Config, s: State, j: nat)
    requires Enabled(c, s, StudentNo(j))
    ensures var s' := Exec(c, s, StudentNo(j));
      && |s'.students| == |s.students| && s'.students == s.students[j := s'.students[j]]
      && s'.supplier == s.supplier && s'.sent == s.sent && s'.supervisor == s.supervisor && s'.served == s.served
      && s'.plates == s.plates && s'.cooks == s.cooks
  {
    hide Next, TakeThree, Class, Config.Quota, Config.KitchenSize;
  }

  lemma StudentAdvances(c: Config, s: State, j: nat)
    requires Enabled(c, s, StudentNo(j)) && !StudentStep(c, s, j).failed && j < |StudentStep(c, s, j).students|
    ensures StudentSteps(c.L, StudentStep(c, s, j).students[j]) < StudentSteps(c.L, s.students[j])
  {
    hide Next, TakeThree, Class, Config.Quota, Config.KitchenSize;
    match s.students[j].at
    case Registering =>
    case Lining =>
    case Hoping =>
    case Collecting =>
    case Seating =>
    case Eating =>
    case Standing =>
  }

  lemma StudentDescends(c: Config, s: State, j: nat)
    requires Enabled(c, s, StudentNo(j)) && !Exec(c, s, StudentNo(j)).failed
    ensures Rank(c, Exec(c, s, StudentNo(j))) < Rank(c, s)
  {
    StudentSpares(c, s, j);
    StudentAdvances(c, s, j);
    hide Total, Exec, Config.Quota, StudentSteps;
    TotalUpdate(StudentRank(c.L), s.students, j, Exec(c, s, StudentNo(j)).students[j]);
  }

  /** A cook's step leaves everybody else where they are. */
  lemma CookSpares(c: Config, s: State, i: nat)
    requires Enabled(c, s, CookNo(i))
    ensures var s' := Exec(c, s, CookNo(i));
      && |s'.cooks| == |s.cooks| && s'.cooks == s.cooks[i := s'.cooks[i]]
      && s'.supplier == s.supplier && s'.sent == s.sent && s'.supervisor == s.supervisor && s'.served == s.served
      && s'.students == s.students
  {
    hide Next, Config.Quota, Config.KitchenSize;
    match s.cooks[i].at
    case Looping =>
    case Picking =>
    case Waiting(f) =>
    case Searching(f) =>
    case Returning(f) =>
    case Leaving(f) =>
    case Queuing(f) =>
    case Serving(f) =>
    case Announcing(f) =>
    case Departing(next) =>
  }

  lemma CookAdvances(c: Config, s: State, i: nat)
    requires Enabled(c, s, CookNo(i)) && !CookStep(c, s, i).failed && i < |CookStep(c, s, i).cooks|
    ensures CookSteps(CookStep(c, s, i).cooks[i].at) + 8 * CookStep(c, s, i).plates
         <= CookSteps(s.cooks[i].at) + 8 * s.plates + if Fruitless(s, CookNo(i)) then 4 else -1
  {
    hide Next, Config.Quota, Config.KitchenSize;
    match s.cooks[i].at
    case Looping =>
    case Picking =>
    case Waiting(f) =>
    case Searching(f) =>
    case Returning(f) =>
    case Leaving(f) =>
    case Queuing(f) =>
    case Serving(f) =>
    case Announcing(f) =>
    case Departing(next) =>
  }

  lemma CookDescends(c: Config, s: State, i: nat)
    requires Enabled(c, s, CookNo(i)) && !Exec(c, s, CookNo(i)).failed
    ensures Rank(c, Exec(c, s, CookNo(i))) <= Rank(c, s) + if Fruitless(s, CookNo(i)) then 4 else -1
  {
    CookSpares(c, s, i);
    CookAdvances(c, s, i);
    hide Total, Exec, Config.Quota, CookSteps, Fruitless;
    TotalUpdate(CookRank(), s.cooks, i, Exec(c, s, CookNo(i)).cooks[i]);
  }

  lemma StepDescends(c: Config, s: State, p: Process)
    requires c.Valid() && Inv(c, s) && Enabled(c, s, p)
    ensures Rank(c, Exec(c, s, p)) <= Rank(c, s) + if Fruitless(s, p) then 4 else -1
  {
    NeverFails(c, s, p);
    hide Inv, Enabled, Exec, Rank, Config.Valid;
    match p
    case Supplier => SupplierDescends(c, s);
    case Supervisor => SupervisorDescends(c, s);
    case CookNo(i) => CookDescends(c, s, i);
    case StudentNo(j) => StudentDescends(c, s, j);
  }

  lemma NeverFails(c: Config, s: State, p: Process)
    requires c.Valid() && Inv(c, s) && Enabled(c, s, p)
    ensures !Exec(c, s, p).failed
  {
    hide Exec, Enabled, KindInv, KitchenInv, PermitsInv, RotaInv, DepartureInv, CooksInv, Config.Valid;
    StepKeeps(c, s, p);
  }

  /** The plates still to leave the kitchen are never negative. */
  lemma PlatesNonNegative(c: Config, s: State)
    requires c.Valid() && Inv(c, s)
    ensures s.plates >= 0
  {
    hide Total, KindInv, RoomsInv, RotaInv, DepartureInv, PermitsInv, Config.Quota, Config.Valid;
    FetchedSplits(c.Quota(), s.cooks);
    PlacedBound(c, s, 0);
    PlacedBound(c, s, 1);
    PlacedBound(c, s, 2);
  }

  lemma RankNonNegative(c: Config, s: State)
    requires c.Valid() && Inv(c, s)
    ensures Rank(c, s) >= 0
  {
    hide Total, KindInv, KitchenInv, RotaInv, DepartureInv, Config.Quota, Config.Valid;
    PlatesNonNegative(c, s);
    TotalAtLeast(CookRank(), s.cooks, 0);
    TotalAtLeast(StudentRank(c.L), s.students, 0);
  }

  /** No search fails before a cook has gone home. */
  lemma FruitlessNeedsDeparture(c: Config, s: State, i: nat)
    requires c.Valid() && Inv(c, s) && Enabled(c, s, CookNo(i)) && Fruitless(s, CookNo(i))
    ensures exists k :: 0 <= k < |s.cooks| && (s.cooks[k].at.Departing? || s.cooks[k].at.CookHome?)
  {
    var s' := Exec(c, s, CookNo(i));
    CookKeeps(c, s, i);
    hide Total, Next, KindInv, KitchenInv, PermitsInv, DepartureInv, CooksInv, RoomsInv, Config.Valid, Config.Quota;
    assert s'.cooks[i].at.Returning?;
    TotalUpdate(Gone(), s.cooks, i, s'.cooks[i]);
    TotalAtLeast(Gone(), s'.cooks, 0);
    assert Total(Gone(), s.cooks) > 0;
    var k := TotalWitness(Gone(), s.cooks);
  }

  /** How many searches of a run found nothing. */
  function FruitlessSearches(states: seq<State>): nat {
    if |states| < 2 then 0
    else FruitlessSearches(states[..|states| - 1]) + if Vain(states[|states| - 2], states[|states| - 1]) then 1 else 0
  }

  predicate Vain(s: State, s': State) {
    |s.cooks| == |s'.cooks| && exists i :: 0 <= i < |s.cooks| && s.cooks[i].at.Searching? && s'.cooks[i].at.Returning?
  }

  /** An upper bound for the steps of a run without fruitless searches. */
  function Budget(c: Config): nat {
    4 * |c.supply| + 3 + 8 * c.Quota() + 6 + 24 * c.Quota() + 8 * c.N + (7 * c.L + 6) * (c.U + c.G)
  }

  lemma InitRank(c: Config)
    requires c.Valid()
    ensures Rank(c, Init(c)) <= Budget(c)
  {
    hide Config.Quota, Config.Valid;
    TotalAtMost(CookRank(), Init(c).cooks, 8);
    TotalAtMost(StudentRank(c.L), Init(c).students, 7 * c.L + 6);
  }

  lemma VainSteps(c: Config, s: State, p: Process)
    requires Enabled(c, s, p) && Fruitless(s, p)
    ensures Vain(s, Exec(c, s, p))
  {
    hide Next;
    assert s.cooks[p.i].at.Searching? && Exec(c, s, p).cooks[p.i].at.Returning?;
  }

  lemma {:induction false} RunDescends(c: Config, states: seq<State>)
    requires c.Valid() && Run(c, states)
    ensures Rank(c, states[|states| - 1]) + |states| <= Budget(c) + 5 * FruitlessSearches(states) + 1
  {
    hide Inv, Enabled, Exec, Rank, Fruitless, Vain, Budget, Config.Valid;
    if |states| == 1 {
      InitRank(c);
    } else {
      var before := states[..|states| - 1];
      var s := states[|states| - 2];
      RunDescends(c, before);
      RunInv(c, before);
      assert before[|before| - 1] == s && Inv(c, s);
      assert Follows(c, s, states[|states| - 1]);
      var p :| Enabled(c, s, p) && states[|states| - 1] == Exec(c, s, p);
      StepDescends(c, s, p);
      if Fruitless(s, p) { VainSteps(c, s, p); }
    }
  }

  /**
   Whatever the scheduler does, a run is no longer than its budget and five steps for every search that
   found nothing; and where it can go no further everybody has gone home.
   */
  lemma {:induction false} RunsAreBounded(c: Config, states: seq<State>)
    requires c.Valid() && Run(c, states)
    ensures |states| <= Budget(c) + 5 * FruitlessSearches(states) + 1
    ensures var s := states[|states| - 1]; (!exists p: Process :: Enabled(c, s, p)) ==> AllHome(s)
  {
    hide Inv, Enabled, Follows, Rank, FruitlessSearches, Budget, Config.Valid, AllHome;
    var s := states[|states| - 1];
    RunDescends(c, states);
    assert Reachable(c, s);
    ReachableInv(c, s);
    RankNonNegative(c, s);
    if !AllHome(s) { DeadlockFreedom(c, s); }
  }
}
