/**
 For every configuration with students of both classes, a run in which an undergraduate is served while a
 graduate waits. The kitchen has room for 2LM + 1 plates, so the supplier alone can bring all three kinds;
 one cook carries a plate of each to the counter, and the undergraduate gets its permit first.
 */
module MessHallExample {
  import opened Rooms
  import opened Tally
  import opened MessHall
  import opened MessHallInvariant
  import opened MessHallSteps
  import opened MessHallPriority

  lemma Goes(c: Config, s: State, p: Process) returns (s': State)
    requires Reachable(c, s) && Enabled(c, s, p)
    ensures s' == Exec(c, s, p) && Reachable(c, s')
  {
    hide Enabled, Exec;
    var states :| Run(c, states) && states[|states| - 1] == s;
    s' := Exec(c, s, p);
    var longer := states + [s'];
    forall k | 0 < k < |longer| ensures Follows(c, longer[k - 1], longer[k]) {
      if k < |states| { assert Follows(c, states[k - 1], states[k]); }
    }
    assert Run(c, longer);
  }

  /** The supplier delivers its next plate, not the last one, to a free slot. */
  lemma Delivers(c: Config, s: State) returns (s': State)
    requires Reachable(c, s) && Shaped(c, s) && !s.failed && s.supplier.AwaitingSlot? && s.sent + 1 < |c.supply|
    requires s.kEmpty > 0 && EMPTY in s.kitchen
    ensures Reachable(c, s')
    ensures var food: int := c.supply[s.sent];
      s' == s.(sent := s.sent + 1, kEmpty := s.kEmpty - 1, kitchen := s.kitchen[Next(s.kitchen, EMPTY) := food],
               kFull := s.kFull[food := s.kFull[food] + 1])
  {
    hide Next, Reachable;
    s' := Goes(c, s, Supplier);
    s' := Goes(c, s', Supplier);
    s' := Goes(c, s', Supplier);
  }

  /** Cook i takes a plate of the kind on the rota from the kitchen. */
  lemma Fetches(c: Config, s: State, i: nat, f: Kind) returns (s': State)
    requires Reachable(c, s) && Shaped(c, s) && !s.failed && i < |s.cooks| && s.cooks[i].at.Looping?
    requires f == NextKind(s.rota) && s.plates != 0 && s.cooks[i].left[f] > 0 && s.kFull[f] > 0 && f in s.kitchen
    ensures Reachable(c, s')
    ensures s' == s.(rota := f + 1, plates := s.plates - 1, kEmpty := s.kEmpty + 1,
                     kFull := s.kFull[f := s.kFull[f] - 1], kitchen := s.kitchen[Next(s.kitchen, f) := EMPTY],
                     cooks := s.cooks[i := Cook(Queuing(f), s.cooks[i].left)])
  {
    hide Next, Reachable;
    s' := Goes(c, s, CookNo(i));
    s' := Goes(c, s', CookNo(i));
    s' := Goes(c, s', CookNo(i));
    s' := Goes(c, s', CookNo(i));
    s' := Goes(c, s', CookNo(i));
    assert s'.cooks == s.cooks[i := Cook(Queuing(f), s.cooks[i].left)];
  }

  /** Cook i puts its plate on the counter. */
  lemma Places(c: Config, s: State, i: nat, f: Kind) returns (s': State)
    requires Reachable(c, s) && Shaped(c, s) && !s.failed && i < |s.cooks| && s.cooks[i].at == Queuing(f)
    requires s.cEmpty[f] > 0 && EMPTY in s.counter
    ensures Reachable(c, s')
    ensures s' == s.(cEmpty := s.cEmpty[f := s.cEmpty[f] - 1], cFull := s.cFull[f := s.cFull[f] + 1],
                     counter := s.counter[Next(s.counter, EMPTY) := f],
                     cooks := s.cooks[i := Cook(Looping, s.cooks[i].left[f := s.cooks[i].left[f] - 1])])
  {
    hide Next, Reachable;
    s' := Goes(c, s, CookNo(i));
    s' := Goes(c, s', CookNo(i));
    s' := Goes(c, s', CookNo(i));
    assert s'.cooks == s.cooks[i := Cook(Looping, s.cooks[i].left[f := s.cooks[i].left[f] - 1])];
  }

  /** Student j registers and joins the line. */
  lemma LinesUp(c: Config, s: State, j: nat) returns (s': State)
    requires Reachable(c, s) && Shaped(c, s) && !s.failed && j < |s.students| && s.students[j].at.Registering?
    ensures Reachable(c, s')
    ensures s' == s.(graduates := s.graduates + Class(s.students[j].graduate), sEmpty := s.sEmpty + 1,
                     students := s.students[j := s.students[j].(at := Hoping)])
  {
    hide Reachable;
    s' := Goes(c, s, StudentNo(j));
    s' := Goes(c, s', StudentNo(j));
    assert s'.students == s.students[j := s.students[j].(at := Hoping)];
  }

  /** With no graduate registered the supervisor issues an undergraduate permit. */
  lemma Permits(c: Config, s: State) returns (s': State)
    requires Reachable(c, s) && Shaped(c, s) && !s.failed && s.supervisor == Gathering(0) && s.served + 1 < c.Quota()
    requires s.cFull[0] > 0 && s.cFull[1] > 0 && s.cFull[2] > 0 && s.sEmpty > 0 && s.graduates == 0
    ensures Reachable(c, s')
    ensures s' == s.(cFull := [s.cFull[0] - 1, s.cFull[1] - 1, s.cFull[2] - 1], sEmpty := s.sEmpty - 1,
                     served := s.served + 1, sFull := s.sFull[0 := s.sFull[0] + 1])
  {
    hide Reachable;
    s' := Goes(c, s, Supervisor);
    s' := Goes(c, s', Supervisor);
    s' := Goes(c, s', Supervisor);
    s' := Goes(c, s', Supervisor);
    s' := Goes(c, s', Supervisor);
    s' := Goes(c, s', Supervisor);
    assert s'.cFull == [s.cFull[0] - 1, s.cFull[1] - 1, s.cFull[2] - 1];
  }

  lemma {:induction false} FirstIsNext(room: seq<int>, item: int, i: nat)
    requires i < |room| && room[i] == item && forall k :: 0 <= k < i ==> room[k] != item
    ensures Next(room, item) == i && item in room
  {
    hide Next;
    assert room[i] in room;
  }

  /** Students of both classes who eat, as every run of the program has. */
  predicate BothClasses(c: Config) { c.U >= 1 && c.G >= 1 && c.L >= 1 }

  lemma MealsToServe(c: Config)
    requires c.Valid() && BothClasses(c)
    ensures 2 <= c.Quota() && c.KitchenSize() == 2 * c.Quota() + 1 < |c.supply|
  {
    assert c.L * (c.U + c.G) >= 1 * (c.U + c.G);
  }

  /** Only the supplier has moved, and it has delivered n plates. */
  predicate Supplying(c: Config, s: State, n: nat) {
    && s == Init(c).(sent := n, kEmpty := c.KitchenSize() - n, kitchen := s.kitchen, kFull := s.kFull)
    && |s.kitchen| == c.KitchenSize() && |s.kFull| == FOOD_KIND
  }

  lemma {:induction false} Supplies(c: Config, n: nat) returns (s: State)
    requires c.Valid() && BothClasses(c) && n <= c.KitchenSize()
    ensures Reachable(c, s) && Supplying(c, s, n)
  {
    MealsToServe(c);
    if n == 0 {
      s := Init(c);
      assert Run(c, [s]);
    } else {
      s := Supplies(c, n - 1);
      ReachableInv(c, s);
      RoomForMore(c, s, n - 1);
      hide Reachable, Next, Inv;
      s := Delivers(c, s);
    }
  }

  /** While the supplier has delivered fewer plates than fit, a slot is free. */
  lemma RoomForMore(c: Config, s: State, n: nat)
    requires c.Valid() && BothClasses(c) && Inv(c, s) && Supplying(c, s, n) && n < c.KitchenSize()
    ensures Shaped(c, s) && !s.failed && s.supplier.AwaitingSlot? && s.sent + 1 < |c.supply|
    ensures s.kEmpty > 0 && EMPTY in s.kitchen
  {
    MealsToServe(c);
    TotalAtLeast(Freeing(), s.cooks, 0);
    hide KindInv, PermitsInv, RotaInv, DepartureInv, CooksInv, Total, Vacant;
  }

  /** A full kitchen holds every kind, since no kind can fill more than LM of its 2LM + 1 slots. */
  lemma AllKindsIn(c: Config, s: State, f: Kind)
    requires c.Valid() && BothClasses(c) && Inv(c, s) && Supplying(c, s, c.KitchenSize())
    ensures f in s.kitchen && s.kFull[f] > 0
  {
    MealsToServe(c);
    var q := c.Quota();
    Undisturbed(c, s, f);
    hide PermitsInv, RotaInv, DepartureInv, CooksInv, Total, Vacant, Config.Quota, Config.KitchenSize;
    RoomCounts(s.kitchen);
    forall g: Kind ensures Plates(s.kitchen, g) <= q && s.kFull[g] == Plates(s.kitchen, g) {
      assert KindInv(c, s, g);
      Undisturbed(c, s, g);
      SupplyBound(c, s, g);
    }
    assert Plates(s.kitchen, 0) <= q && Plates(s.kitchen, 1) <= q && Plates(s.kitchen, 2) <= q;
    assert f == 0 || f == 1 || f == 2;
  }

  /** Cooks that have not moved hold no token and no plate. */
  lemma Undisturbed(c: Config, s: State, f: Kind)
    requires c.Valid() && s.cooks == Init(c).cooks
    ensures Total(Freeing(), s.cooks) == Total(Holding(f), s.cooks) == Total(Released(f), s.cooks) == 0
    ensures InHand(s, f) == Placed(c, s, f) == 0
  {
    hide Total, Config.Valid, Config.Quota;
    FreshCooksKind(c.Quota(), s.cooks, f);
    FreshCooks(c.Quota(), s.cooks, f);
  }

  /** Nobody but the supplier and cook 0 has moved. */
  predicate OnlyCook(c: Config, s: State) {
    s == Init(c).(sent := s.sent, supplier := s.supplier, kEmpty := s.kEmpty, kitchen := s.kitchen, kFull := s.kFull,
                  plates := s.plates, rota := s.rota, cEmpty := s.cEmpty, cFull := s.cFull, counter := s.counter,
                  cooks := s.cooks)
  }

  /** Kind f is on the counter already, or ready to be fetched and put there. */
  predicate KindReady(s: State, f: Kind, k: nat)
    requires |s.kFull| == |s.cEmpty| == |s.cFull| == FOOD_KIND && |s.cooks| > 0 && |s.cooks[0].left| == FOOD_KIND
  {
    if f < k then s.cFull[f] > 0
    else s.cFull[f] >= 0 && s.kFull[f] > 0 && f in s.kitchen && s.cEmpty[f] > 0 && s.cooks[0].left[f] > 0
  }

  /** Cook 0 has put a plate of each kind before k on the counter. */
  predicate Placing(c: Config, s: State, k: nat) {
    && Shaped(c, s) && k <= FOOD_KIND && c.N > 0 && OnlyCook(c, s)
    && s.cooks[0].at.Looping? && NextKind(s.rota) == (if k < FOOD_KIND then k else 0)
    && s.plates == FOOD_KIND * c.Quota() - k
    && (forall f: Kind :: KindReady(s, f, k))
    && forall i :: 0 <= i < |s.counter| ==> (s.counter[i] == EMPTY <==> k <= i)
  }

  lemma FilledIsPlacing(c: Config, s: State)
    requires c.Valid() && BothClasses(c) && Inv(c, s) && Supplying(c, s, c.KitchenSize())
    ensures Placing(c, s, 0)
  {
    MealsToServe(c);
    forall f: Kind ensures KindReady(s, f, 0) { AllKindsIn(c, s, f); }
    hide Inv, Config.Quota, Config.KitchenSize;
  }

  /** A plate of the next kind goes from the kitchen to the counter. */
  function Carried(s: State, f: Kind): State
    requires |s.kFull| == |s.cEmpty| == |s.cFull| == FOOD_KIND && f in s.kitchen && EMPTY in s.counter
    requires |s.cooks| > 0 && |s.cooks[0].left| == FOOD_KIND
  {
    s.(rota := f + 1, plates := s.plates - 1, kEmpty := s.kEmpty + 1,
       kFull := s.kFull[f := s.kFull[f] - 1], kitchen := s.kitchen[Next(s.kitchen, f) := EMPTY],
       cEmpty := s.cEmpty[f := s.cEmpty[f] - 1], cFull := s.cFull[f := s.cFull[f] + 1],
       counter := s.counter[Next(s.counter, EMPTY) := f],
       cooks := s.cooks[0 := Cook(Looping, s.cooks[0].left[f := s.cooks[0].left[f] - 1])])
  }

  lemma Carries(c: Config, s: State, f: Kind)
    requires Reachable(c, s) && Shaped(c, s) && !s.failed && NextKind(s.rota) == f && s.plates != 0
    requires 0 < |s.cooks| && s.cooks[0].at.Looping? && s.cooks[0].left[f] > 0
    requires s.kFull[f] > 0 && s.cEmpty[f] > 0 && f in s.kitchen && EMPTY in s.counter
    ensures Reachable(c, Carried(s, f))
  {
    hide Reachable, Next, Config.Quota, Config.KitchenSize;
    var fetched := Fetches(c, s, 0, f);
    var placed := Places(c, fetched, 0, f);
    assert placed.cooks == Carried(s, f).cooks;
    assert placed == Carried(s, f);
  }

  lemma PlacesNext(c: Config, s: State, k: Kind) returns (s': State)
    requires c.Valid() && BothClasses(c) && Reachable(c, s) && Placing(c, s, k)
    ensures Reachable(c, s') && Placing(c, s', k + 1)
  {
    MealsToServe(c);
    hide Reachable, Config.Valid, Config.Quota, Config.KitchenSize, Next, Init, OnlyCook, KindReady, Carried;
    FirstIsNext(s.counter, EMPTY, k);
    CarriesOn(c, s, k);
    s' := Carried(s, k);
    var next := k + 1;
    forall f: Kind ensures KindReady(s', f, next) { StaysReady(c, s, k, f); }
  }

  lemma CarriesOn(c: Config, s: State, k: Kind)
    requires c.Valid() && BothClasses(c) && Reachable(c, s) && Placing(c, s, k)
    requires Next(s.counter, EMPTY) == k && EMPTY in s.counter
    ensures KindReady(s, k, k) && Reachable(c, Carried(s, k))
    ensures var s' := Carried(s, k);
      && Shaped(c, s') && OnlyCook(c, s') && s'.cooks[0].at.Looping? && s'.rota == k + 1
      && s'.plates == s.plates - 1 && s'.counter == s.counter[k := k]
  {
    MealsToServe(c);
    hide Reachable, Config.Valid, Config.Quota, Config.KitchenSize, Next, Init;
    assert KindReady(s, k, k);
    Carries(c, s, k);
  }

  lemma StaysReady(c: Config, s: State, k: Kind, f: Kind)
    requires Placing(c, s, k) && KindReady(s, k, k) && EMPTY in s.counter
    ensures KindReady(Carried(s, k), f, k + 1)
  {
    hide Next, OnlyCook, Config.Quota, Config.KitchenSize;
    assert KindReady(s, f, k);
    StaysIn(s.kitchen, k);
  }

  /** Taking a plate of one kind leaves the other kinds in the room. */
  lemma StaysIn(room: seq<int>, k: int)
    requires k in room
    ensures forall f :: f in room && f != k ==> f in room[Next(room, k) := EMPTY]
  {
    var after := room[Next(room, k) := EMPTY];
    forall f | f in room && f != k ensures f in after {
      var i :| 0 <= i < |room| && room[i] == f;
      assert after[i] == f;
    }
  }

  /**
   A reachable state in which an undergraduate is about to take its food while a graduate stands in line
   without a permit.
   */
  lemma UndergraduateOvertakes(c: Config) returns (s: State)
    requires c.Valid() && BothClasses(c)
    ensures Reachable(c, s) && |s.students| == c.U + c.G && |s.sFull| == 2 && Overtaking(s)
    ensures !s.students[0].graduate && s.students[0].at.Collecting? && Enabled(c, s, StudentNo(0))
    ensures s.students[c.U].graduate && s.students[c.U].at.Hoping? && s.graduates == 1 && s.sFull == [0, 0]
  {
    MealsToServe(c);
    s := Supplies(c, c.KitchenSize());
    ReachableInv(c, s);
    FilledIsPlacing(c, s);
    s := PlacesNext(c, s, 0);
    s := PlacesNext(c, s, 1);
    s := PlacesNext(c, s, 2);
    s := Serves(c, s);
  }

  /** With a plate of each kind on the counter the undergraduate lines up first and gets its permit. */
  lemma PermitsFirst(c: Config, s: State) returns (s': State)
    requires c.Valid() && BothClasses(c) && Reachable(c, s) && Placing(c, s, FOOD_KIND)
    ensures Reachable(c, s') && Shaped(c, s') && !s'.failed && s'.graduates == 0 && s'.sFull == [0, 0]
    ensures s'.students == Init(c).students[0 := Student(Collecting, 0, false)]
  {
    MealsToServe(c);
    assert KindReady(s, 0, 3) && KindReady(s, 1, 3) && KindReady(s, 2, 3);
    hide Reachable, Config.Valid, Config.Quota, Config.KitchenSize, Total, KindReady, Next, Vacant;
    s' := LinesUp(c, s, 0);
    s' := Permits(c, s');
    s' := Goes(c, s', StudentNo(0));
    assert s'.students == Init(c).students[0 := Student(Collecting, 0, false)];
  }

  /** Then the graduate lines up. */
  lemma Serves(c: Config, s: State) returns (s': State)
    requires c.Valid() && BothClasses(c) && Reachable(c, s) && Placing(c, s, FOOD_KIND)
    ensures Reachable(c, s') && |s'.students| == c.U + c.G && |s'.sFull| == 2 && Overtaking(s')
    ensures !s'.students[0].graduate && s'.students[0].at.Collecting? && Enabled(c, s', StudentNo(0))
    ensures s'.students[c.U].graduate && s'.students[c.U].at.Hoping? && s'.graduates == 1 && s'.sFull == [0, 0]
  {
    hide Reachable, Config.Valid, Config.Quota, Config.KitchenSize, Total, Next, Placing;
    s' := PermitsFirst(c, s);
    s' := LinesUp(c, s', c.U);
    TotalCovers(UndergraduateCollecting(), s'.students, 0, 0);
  }

  // ---------------------------------------------------------------- when it cannot happen

  /** The first U students are undergraduates, the others graduates. */
  predicate Classed(c: Config, s: State) {
    forall j :: 0 <= j < |s.students| ==> (s.students[j].graduate <==> j >= c.U)
  }

  lemma StudentKeepsClass(c: Config, s: State, j: nat)
    requires Enabled(c, s, StudentNo(j))
    ensures var s' := StudentStep(c, s, j);
      && |s'.students| == |s.students| && s'.students[j].graduate == s.students[j].graduate
      && s'.students == s.students[j := s'.students[j]]
  {
    hide Next, TakeThree, Class, Config.Quota, Config.KitchenSize;
    match s.students[j].at
    case Registering =>
    case Lining =>
    case Hoping =>
    case Collecting =>
    case Seating =>
    case Eating =>
    case Standing =>
  }

  lemma StepKeepsClasses(c: Config, s: State, p: Process)
    requires Enabled(c, s, p) && Classed(c, s)
    ensures Classed(c, Exec(c, s, p))
  {
    if p.StudentNo? {
      StudentKeepsClass(c, s, p.j);
      hide StudentStep, Enabled;
    } else if p.Supervisor? {
      hide Next, Config.Quota, Config.KitchenSize;
    } else {
      KitchenMovesOn(c, s, p);
      hide Exec, Enabled;
    }
  }

  lemma {:induction false} RunKeepsClasses(c: Config, states: seq<State>, n: nat)
    requires c.Valid() && Run(c, states) && n < |states|
    ensures Classed(c, states[n])
  {
    hide Exec, Enabled, Config.Valid;
    if n == 0 {
      assert Classed(c, Init(c));
    } else {
      hide Classed, Init;
      RunKeepsClasses(c, states, n - 1);
      assert Follows(c, states[n - 1], states[n]);
      var p :| Enabled(c, states[n - 1], p) && states[n] == Exec(c, states[n - 1], p);
      StepKeepsClasses(c, states[n - 1], p);
    }
  }

  lemma OneClassIsFair(c: Config, s: State)
    requires c.Valid() && Reachable(c, s) && !BothClasses(c)
    ensures |s.sFull| == 2 && !Overtaking(s)
  {
    var states :| Run(c, states) && states[|states| - 1] == s;
    RunKeepsClasses(c, states, |states| - 1);
    ReachableInv(c, s);
    hide Total, KindInv, KitchenInv, RotaInv, DepartureInv, CooksInv, Config.Valid, Config.Quota, Run;
    TotalAtLeast(GraduateLining(), s.students, 0);
    if c.G == 0 || c.L == 0 {
      TotalAtMost(GraduateOpen(), s.students, 0);
    } else {
      TotalAtMost(UndergraduateHoping(), s.students, 0);
      TotalAtMost(UndergraduateCollecting(), s.students, 0);
    }
  }

  /** Exactly when students of both classes eat can an undergraduate be served while a graduate waits. */
  lemma FairExactlyWithOneClass(c: Config)
    requires c.Valid()
    ensures (forall s :: Reachable(c, s) ==> |s.sFull| == 2 && !Overtaking(s)) <==> !BothClasses(c)
  {
    hide Reachable, Config.Valid, Overtaking, BothClasses;
    if BothClasses(c) {
      var s := UndergraduateOvertakes(c);
    } else {
      forall s | Reachable(c, s) ensures |s.sFull| == 2 && !Overtaking(s) { OneClassIsFair(c, s); }
    }
  }
}
