/** What the mess hall promises over every run. */
module MessHallTheorems {
  import opened Rooms
  import opened Tally
  import opened MessHall
  import opened MessHallInvariant
  import opened MessHallSteps

  // ---------------------------------------------------------------- cooks that have gone home

  /** 1 when this cook has delivered every plate of kind f by itself. */
  function Complete(f: Kind): Cook -> int { (k: Cook) => Bit(f < |k.left| && k.left[f] == 0) }

  lemma {:induction false} CompleteDelivers(q: nat, cooks: seq<Cook>, f: Kind)
    requires forall i :: 0 <= i < |cooks| ==> |cooks[i].left| == FOOD_KIND && 0 <= cooks[i].left[f] <= q
    ensures q * Total(Complete(f), cooks) <= Total(Delivered(q, f), cooks)
  {
    if cooks != [] {
      assert |cooks[0].left| == FOOD_KIND && 0 <= cooks[0].left[f] <= q;
      CompleteDelivers(q, cooks[1..], f);
      var first := Complete(f)(cooks[0]);
      assert q * (first + Total(Complete(f), cooks[1..])) == q * first + q * Total(Complete(f), cooks[1..]);
    }
  }

  lemma {:induction false} GoneAreComplete(q: nat, plates: int, cooks: seq<Cook>)
    requires plates != 0 && forall i :: 0 <= i < |cooks| ==> CookOk(q, plates, cooks[i])
    ensures Total(Gone(), cooks)
         <= Total(Complete(0), cooks) + Total(Complete(1), cooks) + Total(Complete(2), cooks)
  {
    if cooks != [] {
      assert CookOk(q, plates, cooks[0]);
      GoneAreComplete(q, plates, cooks[1..]);
    }
  }

  /** At most one cook delivers a whole kind, and then the kind is finished. */
  lemma CompleteOnce(c: Config, s: State, f: Kind)
    requires c.Valid() && Inv(c, s) && c.Quota() > 0
    ensures 0 <= Total(Complete(f), s.cooks) <= 1
    ensures Total(Complete(f), s.cooks) == 1 ==> Placed(c, s, f) == c.Quota()
  {
    hide Total, KindInv, KitchenInv, RoomsInv, RotaInv, DepartureInv, PermitsInv, Config.Quota;
    var q := c.Quota();
    forall i | 0 <= i < |s.cooks| ensures |s.cooks[i].left| == FOOD_KIND && 0 <= s.cooks[i].left[f] <= q {
      assert CookOk(q, s.plates, s.cooks[i]);
    }
    CompleteDelivers(q, s.cooks, f);
    PlacedBound(c, s, f);
    TotalAtLeast(Complete(f), s.cooks, 0);
    var t := Total(Complete(f), s.cooks);
    assert q * t <= q;
    assert t <= 1 || q * t >= q * 2;
  }

  /** While plates are left in the kitchen, every cook that has gone home has finished a kind of its own. */
  lemma GoneFinishKinds(c: Config, s: State)
    requires c.Valid() && Inv(c, s) && c.Quota() > 0 && s.plates != 0
    ensures Total(Gone(), s.cooks) <= Bit(Placed(c, s, 0) == c.Quota()) + Bit(Placed(c, s, 1) == c.Quota())
                                      + Bit(Placed(c, s, 2) == c.Quota())
  {
    hide Total, KindInv, KitchenInv, RoomsInv, RotaInv, DepartureInv, PermitsInv, Config.Quota, Placed;
    GoneAreComplete(c.Quota(), s.plates, s.cooks);
    CompleteOnce(c, s, 0);
    CompleteOnce(c, s, 1);
    CompleteOnce(c, s, 2);
  }

  /** No plate left behind: when all cooks have left the loop, every plate is on the counter or eaten. */
  lemma NoPlateLeftBehind(c: Config, s: State)
    requires c.Valid() && Inv(c, s)
    requires forall i :: 0 <= i < |s.cooks| ==> s.cooks[i].at.Departing? || s.cooks[i].at.CookHome?
    ensures forall f: Kind :: Placed(c, s, f) == c.Quota()
    ensures s.plates == 0
  {
    hide Total, KindInv, KitchenInv, RoomsInv, RotaInv, DepartureInv, PermitsInv, Config.Quota, Placed;
    TotalAtMost(Gone(), s.cooks, 1);
    forall f: Kind ensures Placed(c, s, f) == c.Quota() && InHand(s, f) == 0 {
      assert f == 0 || f == 1 || f == 2;
      TotalAtMost(Carrying(f), s.cooks, 0);
      PlacedBound(c, s, f);
      if s.plates == 0 {
        PlatesLeft(c, s);
      } else if c.Quota() > 0 {
        GoneFinishKinds(c, s);
      }
    }
    AllFetched(c, s);
  }

  lemma AllFetched(c: Config, s: State)
    requires c.Valid() && Inv(c, s)
    requires forall f: Kind :: Placed(c, s, f) == c.Quota() && InHand(s, f) == 0
    ensures s.plates == 0
  {
    hide Total, KindInv, RoomsInv, RotaInv, DepartureInv, PermitsInv, Config.Quota;
    FetchedSplits(c.Quota(), s.cooks);
    assert Placed(c, s, 0) == Placed(c, s, 1) == Placed(c, s, 2) == c.Quota();
    assert InHand(s, 0) == InHand(s, 1) == InHand(s, 2) == 0;
  }

  // ---------------------------------------------------------------- deadlock freedom

  /** Where each process can be when none of them has an enabled step. */
  ghost predicate Stuck(c: Config, s: State)
    requires Shaped(c, s)
  {
    && (s.supplier.SupplierHome? || (s.supplier.AwaitingSlot? && s.kEmpty == 0))
    && (match s.supervisor
        case Gathering(k) => s.cFull[k] == 0
        case Calling => s.sEmpty == 0
        case SupervisorHome => true
        case _ => false)
    && (forall i :: 0 <= i < |s.cooks| ==> CookStuck(c, s, s.cooks[i].at))
    && (forall j :: 0 <= j < |s.students| ==> StudentStuck(c, s, s.students[j]))
  }

  ghost predicate CookStuck(c: Config, s: State, at: CookAt)
    requires Shaped(c, s)
  {
    match at
    case Waiting(f) => s.kFull[f] == 0
    case Queuing(f) => s.cEmpty[f] == 0
    case CookHome => true
    case _ => false
  }

  ghost predicate StudentStuck(c: Config, s: State, x: Student)
    requires Shaped(c, s)
  {
    match x.at
    case Hoping => s.sFull[Class(x.graduate)] == 0
    case Seating => s.tEmpty == 0
    case StudentHome => true
    case _ => false
  }

  lemma NothingEnabledIsStuck(c: Config, s: State)
    requires c.Valid() && Inv(c, s) && forall p :: !Enabled(c, s, p)
    ensures Stuck(c, s)
  {
    hide Total, KitchenInv, CooksInv, RotaInv, DepartureInv;
    assert !Enabled(c, s, Supplier) && !Enabled(c, s, Supervisor);
    if s.supervisor.Gathering? { assert KindInv(c, s, s.supervisor.next); }
    forall i | 0 <= i < |s.cooks| ensures CookStuck(c, s, s.cooks[i].at) {
      assert !Enabled(c, s, CookNo(i));
      match s.cooks[i].at
      case Waiting(f) => assert KindInv(c, s, f);
      case Queuing(f) => assert KindInv(c, s, f);
      case _ =>
    }
    forall j | 0 <= j < |s.students| ensures StudentStuck(c, s, s.students[j]) {
      assert !Enabled(c, s, StudentNo(j));
    }
  }

  /** Stuck students all wait for a permit, no permit is out, and every meal served has been collected. */
  lemma StuckStudents(c: Config, s: State)
    requires c.Valid() && Inv(c, s) && Stuck(c, s)
    ensures Total(Meals(), s.students) == s.served && s.sFull[0] == 0 && s.sFull[1] == 0
    ensures forall j :: 0 <= j < |s.students| ==> s.students[j].at.Hoping? || s.students[j].at.StudentHome?
    ensures Total(GraduateOpen(), s.students) == s.graduates && s.graduates <= s.sEmpty
    ensures Total(UndergraduateHoping(), s.students) + s.graduates == s.sEmpty
  {
    hide Total, KindInv, KitchenInv, CooksInv, RotaInv, DepartureInv;
    var xs := s.students;
    assert forall j :: 0 <= j < |xs| ==> StudentStuck(c, s, xs[j]);
    TotalAtMost(AtTable(), xs, 0);
    TotalAtLeast(AtTable(), xs, 0);
    TotalAtMost(AtCounter(), xs, 0);
    TotalAtLeast(AtCounter(), xs, 0);
    TotalAtMost(GraduateLining(), xs, 0);
    TotalAtLeast(GraduateLining(), xs, 0);
    if s.sFull[1] > 0 {
      var j := TotalWitness(GraduateOpen(), xs);
      assert false;
    }
    if s.sFull[0] > 0 {
      var j := TotalWitness(UndergraduateHoping(), xs);
      assert false;
    }
  }

  /** With Q meals collected every student has gone home. */
  lemma AllMealsAllHome(c: Config, s: State)
    requires c.Valid() && Inv(c, s) && Total(Meals(), s.students) == c.Quota()
    requires forall j :: 0 <= j < |s.students| ==> s.students[j].at.Hoping? || s.students[j].at.StudentHome?
    ensures forall j :: 0 <= j < |s.students| ==> s.students[j].at.StudentHome?
  {
    hide Total, KindInv, KitchenInv, CooksInv, RotaInv, DepartureInv, RoomsInv;
    TotalAtMost(Meals(), s.students, c.L);
    assert c.Quota() == c.L * |s.students|;
  }

  lemma HomeMeals(c: Config, s: State)
    requires c.Valid() && Inv(c, s) && forall j :: 0 <= j < |s.students| ==> s.students[j].at.StudentHome?
    ensures Total(Meals(), s.students) == c.Quota()
  {
    hide Total, KindInv, KitchenInv, CooksInv, RotaInv, DepartureInv, RoomsInv;
    TotalAtMost(Meals(), s.students, c.L);
    assert c.Quota() == c.L * |s.students|;
  }

  /** The supervisor is never stuck on s.empty. */
  lemma StuckNotCalling(c: Config, s: State)
    requires c.Valid() && Inv(c, s) && Stuck(c, s)
    ensures !s.supervisor.Calling?
  {
    hide Total, KindInv, KitchenInv, CooksInv, RotaInv, DepartureInv;
    if s.supervisor.Calling? {
      StuckStudents(c, s);
      var xs := s.students;
      forall j | 0 <= j < |xs| ensures xs[j].at.StudentHome? {
        TotalAtLeast(UndergraduateHoping(), xs, 0);
        TotalCovers(UndergraduateHoping(), xs, j, j);
        TotalCovers(GraduateOpen(), xs, j, j);
      }
      HomeMeals(c, s);
      assert false;
    }
  }

  /** Tokens and plates of kind f in a stuck state. */
  lemma StuckKind(c: Config, s: State, f: Kind)
    requires c.Valid() && Inv(c, s) && Stuck(c, s)
    ensures s.kFull[f] == Plates(s.kitchen, f) + Total(Released(f), s.cooks)
    ensures s.cEmpty[f] + Plates(s.counter, f) == c.Share(f)
    ensures s.cFull[f] + Gathered(s, f) == Placed(c, s, f)
    ensures Plates(s.counter, f) == Placed(c, s, f) - s.served
    ensures Plates(s.kitchen, f) + InHand(s, f) + Placed(c, s, f) == Supplied(c, s, f) <= c.Quota()
    ensures s.supplier.SupplierHome? ==> Supplied(c, s, f) == c.Quota()
    ensures Total(Gone(), s.cooks) > 0 ==> Total(Released(f), s.cooks) > 0
  {
    hide Total, KitchenInv, CooksInv, RotaInv, DepartureInv, PermitsInv, RoomsInv, Plates;
    assert KindInv(c, s, f);
    StuckStudents(c, s);
    SupplyBound(c, s, f);
    assert forall i :: 0 <= i < |s.cooks| ==> CookStuck(c, s, s.cooks[i].at);
    TotalAtMost(Holding(f), s.cooks, 0);
    TotalAtLeast(Holding(f), s.cooks, 0);
    TotalAtMost(Putting(f), s.cooks, 0);
    TotalAtLeast(Putting(f), s.cooks, 0);
    TotalAtMost(Declaring(f), s.cooks, 0);
    TotalAtLeast(Declaring(f), s.cooks, 0);
    TotalMonotone(Gone(), Released(f), s.cooks);
  }

  /** A stuck supplier has filled the kitchen, which then holds every kind. */
  lemma StuckSupplier(c: Config, s: State)
    requires c.Valid() && Inv(c, s) && Stuck(c, s) && !s.supplier.SupplierHome?
    ensures forall f: Kind :: Plates(s.kitchen, f) > 0
  {
    hide Total, KindInv, CooksInv, RotaInv, DepartureInv, PermitsInv, Plates, Placed, Supplied;
    assert forall i :: 0 <= i < |s.cooks| ==> CookStuck(c, s, s.cooks[i].at);
    TotalAtMost(Freeing(), s.cooks, 0);
    TotalAtLeast(Freeing(), s.cooks, 0);
    RoomCounts(s.kitchen);
    forall f: Kind ensures Plates(s.kitchen, f) <= c.Quota() {
      StuckKind(c, s, f);
      PlacedBound(c, s, f);
    }
    forall f: Kind ensures Plates(s.kitchen, f) > 0 {
      assert f == 0 || f == 1 || f == 2;
      assert c.KitchenSize() == 2 * c.Quota() + 1;
    }
  }

  /** Once somebody has gone home its surplus posts keep every cook off k.full. */
  lemma StuckCooksQueue(c: Config, s: State, i: nat)
    requires c.Valid() && Inv(c, s) && Stuck(c, s) && Total(Gone(), s.cooks) > 0 && i < |s.cooks|
    ensures s.cooks[i].at.Queuing? || s.cooks[i].at.CookHome?
  {
    hide Total, KindInv, KitchenInv, CooksInv, RotaInv, DepartureInv, PermitsInv, RoomsInv, Plates, Placed;
    assert CookStuck(c, s, s.cooks[i].at);
    if s.cooks[i].at.Waiting? { StuckKind(c, s, s.cooks[i].at.food); }
  }

  /** The supervisor has finished: everybody has. */
  lemma StuckAfterService(c: Config, s: State)
    requires c.Valid() && Inv(c, s) && Stuck(c, s) && s.supervisor.SupervisorHome?
    ensures AllHome(s)
  {
    hide Total, KindInv, KitchenInv, CooksInv, DepartureInv, RoomsInv, Plates, Supplied, Assigned;
    StuckStudents(c, s);
    AllMealsAllHome(c, s);
    forall f: Kind
      ensures Placed(c, s, f) == c.Quota() && InHand(s, f) == 0 && Plates(s.kitchen, f) == 0
    {
      StuckKind(c, s, f);
      PlacedBound(c, s, f);
    }
    AllFetched(c, s);
    var soups := Plates(s.kitchen, 0);
    if !s.supplier.SupplierHome? {
      StuckSupplier(c, s);
      assert false;
    }
    forall i | 0 <= i < |s.cooks| ensures !s.cooks[i].at.Queuing? {
      if s.cooks[i].at.Queuing? {
        var f := s.cooks[i].at.food;
        assert InHand(s, f) == 0;
        TotalCovers(Carrying(f), s.cooks, i, i);
      }
    }
    assert forall i :: 0 <= i < |s.cooks| ==> CookStuck(c, s, s.cooks[i].at);
    TotalAtLeast(Gone(), s.cooks, 0);
    if Total(Gone(), s.cooks) == 0 {
      var k := TotalWitness(Active(), s.cooks);
      assert false;
    }
    forall i | 0 <= i < |s.cooks| ensures s.cooks[i].at.CookHome? { StuckCooksQueue(c, s, i); }
  }

  /** What the supervisor's wait for kind j says when everything is stuck. */
  lemma StuckGathering(c: Config, s: State, j: Kind)
    requires c.Valid() && Inv(c, s) && Stuck(c, s) && s.supervisor == Gathering(j)
    ensures s.served < c.Quota() && Placed(c, s, j) == s.served
    ensures forall f: Kind :: s.served <= Placed(c, s, f)
    ensures Plates(s.kitchen, j) > 0
    ensures forall i :: 0 <= i < |s.cooks| ==> Job(s.cooks[i].at) != j
  {
    hide Total, KindInv, KitchenInv, CooksInv, DepartureInv, RoomsInv, Plates, Supplied, Assigned, RotaInv, Placed;
    forall f: Kind ensures s.served <= Placed(c, s, f) {
      StuckKind(c, s, f);
      TotalAtLeast(Meals(), s.students, 0);
      CFullNonNegative(c, s, f);
    }
    StuckKind(c, s, j);
    assert c.Share(j) >= 1;
    assert forall i :: 0 <= i < |s.cooks| ==> CookStuck(c, s, s.cooks[i].at);
    forall i | 0 <= i < |s.cooks| ensures s.cooks[i].at != Queuing(j) {}
    TotalAtMost(Carrying(j), s.cooks, 0);
    TotalAtLeast(Carrying(j), s.cooks, 0);
    if !s.supplier.SupplierHome? { StuckSupplier(c, s); }
    TotalAtLeast(Released(j), s.cooks, 0);
  }

  lemma CFullNonNegative(c: Config, s: State, f: Kind)
    requires c.Valid() && Inv(c, s)
    ensures s.kFull[f] >= 0 && s.cEmpty[f] >= 0 && s.cFull[f] >= 0
  {
    assert KindInv(c, s, f);
  }

  /** Before the first departure every kind has been assigned at most once more than kind j has been placed. */
  lemma StuckAssignments(c: Config, s: State, j: Kind, i: nat)
    requires c.Valid() && Inv(c, s) && Stuck(c, s) && s.supervisor == Gathering(j)
    requires Total(Gone(), s.cooks) == 0 && i < |s.cooks|
    ensures s.cooks[i].at.Waiting? || s.cooks[i].at.Queuing?
    ensures var f := s.cooks[i].at.food; Placed(c, s, f) + Total(Working(f), s.cooks) <= s.served + 1
    ensures Total(Working(s.cooks[i].at.food), s.cooks) >= 1
  {
    hide Total, KindInv, KitchenInv, CooksInv, DepartureInv, RoomsInv, Plates, Supplied, PermitsInv;
    StuckGathering(c, s, j);
    TotalAtMost(Working(j), s.cooks, 0);
    AssignmentsSplit(c.Quota(), s.cooks, j);
    assert j == 0 || j == 1 || j == 2;
    assert CookStuck(c, s, s.cooks[i].at);
    TotalCovers(Gone(), s.cooks, i, i);
    var f := s.cooks[i].at.food;
    assert f == 0 || f == 1 || f == 2;
    AssignmentsSplit(c.Quota(), s.cooks, f);
    TotalCovers(Working(f), s.cooks, i, i);
  }

  /** Before the first departure: a blocked cook would be an assignment the rota has not made. */
  lemma StuckBeforeDepartures(c: Config, s: State, j: Kind)
    requires c.Valid() && Inv(c, s) && Stuck(c, s) && s.supervisor == Gathering(j)
    ensures Total(Gone(), s.cooks) > 0
  {
    hide Total, KindInv, KitchenInv, CooksInv, DepartureInv, RoomsInv, Plates, Supplied, PermitsInv, RotaInv, Placed;
    TotalAtLeast(Gone(), s.cooks, 0);
    if Total(Gone(), s.cooks) == 0 {
      StuckGathering(c, s, j);
      forall i | 0 <= i < |s.cooks| ensures !s.cooks[i].at.Queuing? { StuckNotQueuing(c, s, j, i); }
      StuckAssignments(c, s, j, 0);
      var f := s.cooks[0].at.food;
      assert CookStuck(c, s, s.cooks[0].at);
      StuckKind(c, s, f);
      if !s.supplier.SupplierHome? { StuckSupplier(c, s); }
      TotalAtLeast(Released(f), s.cooks, 0);
      assert forall i :: 0 <= i < |s.cooks| ==> CookStuck(c, s, s.cooks[i].at);
      TotalAtMost(Carrying(f), s.cooks, 0);
      assert false;
    }
  }

  lemma StuckNotQueuing(c: Config, s: State, j: Kind, i: nat)
    requires c.Valid() && Inv(c, s) && Stuck(c, s) && s.supervisor == Gathering(j)
    requires Total(Gone(), s.cooks) == 0 && i < |s.cooks|
    ensures !s.cooks[i].at.Queuing?
  {
    hide Total, KindInv, KitchenInv, CooksInv, DepartureInv, RoomsInv, Plates, Supplied, PermitsInv, RotaInv, Placed;
    StuckAssignments(c, s, j, i);
    var f := s.cooks[i].at.food;
    StuckKind(c, s, f);
    assert CookStuck(c, s, s.cooks[i].at);
    assert c.Share(f) >= 1;
  }

  /** After the first departure: too few plates are left for the cooks that carry one. */
  lemma StuckAfterDepartures(c: Config, s: State, j: Kind)
    requires c.Valid() && Inv(c, s) && Stuck(c, s) && s.supervisor == Gathering(j)
    ensures Total(Gone(), s.cooks) <= 0
  {
    hide Total, KindInv, KitchenInv, CooksInv, RoomsInv, Plates, Supplied, PermitsInv, RotaInv, Placed;
    StuckGathering(c, s, j);
    forall f: Kind ensures InHand(s, f) <= Unplaced(c, s, f) && 0 <= InHand(s, f) { PlacedBound(c, s, f); }
    PlatesLeft(c, s);
    GoneFinishKinds(c, s);
    StuckKind(c, s, j);
    assert j == 0 || j == 1 || j == 2;
    assert InHand(s, 0) <= Unplaced(c, s, 0) && InHand(s, 1) <= Unplaced(c, s, 1) && InHand(s, 2) <= Unplaced(c, s, 2);
    TotalAtMost(Carrying(j), s.cooks, 0);
    if Total(Gone(), s.cooks) > 0 {
      QueuingOrHome(c, s);
      assert false;
    }
  }

  lemma QueuingOrHome(c: Config, s: State)
    requires c.Valid() && Inv(c, s) && Stuck(c, s) && Total(Gone(), s.cooks) > 0
    ensures InHand(s, 0) + InHand(s, 1) + InHand(s, 2) + Total(Gone(), s.cooks) == c.N
  {
    hide Total, KindInv, KitchenInv, CooksInv, RoomsInv, Plates, Supplied, PermitsInv, RotaInv, Placed, DepartureInv;
    forall i | 0 <= i < |s.cooks| ensures s.cooks[i].at.Queuing? || s.cooks[i].at.CookHome? {
      StuckCooksQueue(c, s, i);
    }
    CarryingOrGone(s.cooks);
  }

  lemma {:induction false} CarryingOrGone(cooks: seq<Cook>)
    requires forall i :: 0 <= i < |cooks| ==> cooks[i].at.Queuing? || cooks[i].at.CookHome?
    ensures Total(Carrying(0), cooks) + Total(Carrying(1), cooks) + Total(Carrying(2), cooks)
            + Total(Gone(), cooks) == |cooks|
  {
    if cooks != [] {
      assert cooks[0].at.Queuing? || cooks[0].at.CookHome?;
      CarryingOrGone(cooks[1..]);
    }
  }

  /** Deadlock freedom of a single state. */
  lemma NeverStuck(c: Config, s: State)
    requires c.Valid() && Inv(c, s) && !AllHome(s)
    ensures exists p :: Enabled(c, s, p)
  {
    hide Inv, Enabled, AllHome, Config.Valid;
    if forall p :: !Enabled(c, s, p) {
      NothingEnabledIsStuck(c, s);
      StuckCases(c, s);
      assert false;
    }
  }

  lemma StuckCases(c: Config, s: State)
    requires c.Valid() && Inv(c, s) && Stuck(c, s)
    ensures AllHome(s)
  {
    hide AllHome, RoomsInv, CooksInv, KitchenInv, KindInv, PermitsInv, RotaInv, DepartureInv, Total;
    TotalAtLeast(Gone(), s.cooks, 0);
    match s.supervisor
    case SupervisorHome => StuckAfterService(c, s);
    case Calling => StuckNotCalling(c, s);
    case Gathering(j) =>
      StuckBeforeDepartures(c, s, j);
      StuckAfterDepartures(c, s, j);
    case _ =>
  }

  // ---------------------------------------------------------------- the promises, over every run

  /** Deadlock freedom: every state of every run in which somebody is not home has an enabled step. */
  lemma DeadlockFreedom(c: Config, s: State)
    requires c.Valid() && Reachable(c, s) && !AllHome(s)
    ensures exists p: Process :: Enabled(c, s, p)
  {
    hide Enabled, AllHome, Inv;
    ReachableInv(c, s);
    NeverStuck(c, s);
  }

  /** No assertion fails and no search comes back empty-handed where the source relies on it. */
  lemma SearchesSucceed(c: Config, s: State)
    requires c.Valid() && Reachable(c, s)
    ensures Shaped(c, s)
    ensures
      && !s.failed
      && (s.supplier.Storing? ==> Next(s.kitchen, EMPTY) != -1)
      && (forall i :: 0 <= i < |s.cooks| && s.cooks[i].at.Serving? ==> Next(s.counter, EMPTY) != -1)
      && (forall j :: 0 <= j < |s.students| && s.students[j].at.Collecting? ==> TakeThree(s.counter, 0) != [])
      && (forall j :: 0 <= j < |s.students| && s.students[j].at.Eating? ==> Next(s.tables, EMPTY) != -1)
  {
    ReachableInv(c, s);
    hide Next, TakeThree, KindInv, KitchenInv, PermitsInv, RotaInv, DepartureInv, CooksInv;
    if s.supplier.Storing? { SupplierFindsSlot(c, s); }
    forall i | 0 <= i < |s.cooks| && s.cooks[i].at.Serving? ensures Next(s.counter, EMPTY) != -1 {
      CookFindsSlot(c, s, i);
    }
    forall j | 0 <= j < |s.students| && s.students[j].at.Collecting? ensures TakeThree(s.counter, 0) != [] {
      CollectingSucceeds(c, s, j);
    }
    StudentFindsTable(c, s);
  }

  /** Free-slot tokens, occupied slots and processes in between add up to each room's capacity, at all times. */
  lemma CapacityConserved(c: Config, s: State)
    requires c.Valid() && Reachable(c, s)
    ensures Shaped(c, s)
    ensures
      && s.kEmpty + Bit(s.supplier.Storing?) + Total(Freeing(), s.cooks)
         + Plates(s.kitchen, 0) + Plates(s.kitchen, 1) + Plates(s.kitchen, 2) == c.KitchenSize()
      && (forall f: Kind :: s.cEmpty[f] + Plates(s.counter, f) + Total(Putting(f), s.cooks) == c.Share(f))
      && c.Share(0) + c.Share(1) + c.Share(2) == c.S
      && s.tEmpty + Total(AtTable(), s.students) == c.T
  {
    hide Total, CooksInv, RotaInv, DepartureInv, Exec;
    ReachableInv(c, s);
    RoomCounts(s.kitchen);
    forall f: Kind ensures s.cEmpty[f] + Plates(s.counter, f) + Total(Putting(f), s.cooks) == c.Share(f) {
      assert KindInv(c, s, f);
    }
  }

  /** A full counter holds at least one plate of each kind. */
  lemma CounterDiversity(c: Config, s: State)
    requires c.Valid() && Reachable(c, s) && EMPTY !in s.counter
    ensures forall f: Kind :: Plates(s.counter, f) > 0
  {
    hide Total, CooksInv, RotaInv, DepartureInv, KitchenInv, PermitsInv, Exec;
    ReachableInv(c, s);
    RoomCounts(s.counter);
    forall f: Kind ensures Plates(s.counter, f) <= c.Share(f) {
      assert KindInv(c, s, f);
      TotalAtLeast(Putting(f), s.cooks, 0);
    }
    forall f: Kind ensures Plates(s.counter, f) > 0 {
      assert f == 0 || f == 1 || f == 2;
      assert Plates(s.counter, 0) + Plates(s.counter, 1) + Plates(s.counter, 2) == c.S;
      assert Plates(s.counter, f) == c.Share(f) >= 1;
    }
  }

  /** Graduate priority: the supervisor permits an undergraduate exactly when every registered
      graduate already has a permit, and each permit it issues has a student of its class waiting for it. */
  lemma GraduatePriority(c: Config, s: State)
    requires c.Valid() && Reachable(c, s) && s.supervisor.Choosing?
    ensures Enabled(c, s, Supervisor)
    ensures var s' := Exec(c, s, Supervisor);
      && (s'.supervisor == Admitting(true) <==> Total(GraduateOpen(), s.students) > s.sFull[1])
      && (s'.supervisor == Admitting(false) <==> Total(GraduateOpen(), s.students) == s.sFull[1])
      && (s'.supervisor == Admitting(false) ==> Total(UndergraduateHoping(), s.students) > s.sFull[0])
  {
    hide Total, CooksInv, RotaInv, DepartureInv, KitchenInv, KindInv;
    ReachableInv(c, s);
    TotalAtLeast(GraduateLining(), s.students, 0);
  }

  /** At all times the permits out for a class are covered by registered students of that class. */
  lemma PermitsCovered(c: Config, s: State)
    requires c.Valid() && Reachable(c, s)
    ensures Shaped(c, s)
    ensures
      && s.sFull[1] + Bit(s.supervisor == Admitting(true)) <= Total(GraduateOpen(), s.students)
      && s.sFull[0] + Bit(s.supervisor == Admitting(false)) <= Total(UndergraduateHoping(), s.students)
  {
    hide Total, CooksInv, RotaInv, DepartureInv, KitchenInv, KindInv;
    ReachableInv(c, s);
  }

  /** No plate left behind, over every run: once all cooks are home all 3LM plates have been placed,
      and what is not on the counter has been eaten. */
  lemma CooksHomeAllPlaced(c: Config, s: State)
    requires c.Valid() && Reachable(c, s)
    requires forall i :: 0 <= i < |s.cooks| ==> s.cooks[i].at.CookHome?
    ensures Shaped(c, s)
    ensures
      && s.plates == 0
      && (forall f: Kind :: Placed(c, s, f) == c.Quota() && f !in s.kitchen)
      && (forall f: Kind :: Plates(s.counter, f) + Total(Meals(), s.students) == c.Quota())
  {
    hide Total, CooksInv, RotaInv, DepartureInv, KitchenInv, PermitsInv, KindInv;
    ReachableInv(c, s);
    NoPlateLeftBehind(c, s);
    PlatesLeft(c, s);
    forall f: Kind ensures f !in s.kitchen && Plates(s.counter, f) + Total(Meals(), s.students) == c.Quota() {
      AllPlacedKind(c, s, f);
    }
  }

  lemma AllPlacedKind(c: Config, s: State, f: Kind)
    requires c.Valid() && Inv(c, s) && Placed(c, s, f) == c.Quota()
    ensures f !in s.kitchen && Plates(s.counter, f) + Total(Meals(), s.students) == c.Quota()
  {
    hide Total;
    assert KindInv(c, s, f);
    SupplyBound(c, s, f);
    TotalAtLeast(Carrying(f), s.cooks, 0);
    Stock(s.kitchen, f);
  }

  /** When everybody is home, every student has eaten L times and both rooms are empty. */
  lemma EverybodyFed(c: Config, s: State)
    requires c.Valid() && Reachable(c, s) && AllHome(s)
    ensures Shaped(c, s)
    ensures
      && (forall j :: 0 <= j < |s.students| ==> s.students[j].round == c.L)
      && s.served == c.Quota()
      && (forall f: Kind :: f !in s.kitchen && f !in s.counter)
  {
    hide Total, CooksInv, RotaInv, DepartureInv, KitchenInv, KindInv;
    ReachableInv(c, s);
    HomeMeals(c, s);
    CooksHomeAllPlaced(c, s);
    forall f: Kind ensures f !in s.counter { Stock(s.counter, f); }
  }
}
