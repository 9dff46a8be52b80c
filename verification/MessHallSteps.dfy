/** Every step of every process keeps the mess hall invariant, so every state of every run satisfies it. */
module MessHallSteps {
  import opened Rooms
  import opened Tally
  import opened MessHall
  import opened MessHallInvariant

  /** Writing one slot changes the count of the old and of the new item only. */
  lemma RoomUpdate(room: seq<int>, slot: nat, item: int, f: int)
    requires slot < |room|
    ensures Plates(room[slot := item], f) == Plates(room, f) - Bit(room[slot] == f) + Bit(item == f)
  {
  }

  lemma RoomStays(room: seq<int>, slot: nat, item: int)
    requires slot < |room| && 0 <= item <= EMPTY && Holds(room)
    ensures Holds(room[slot := item])
  {
    var after := room[slot := item];
    forall x | x in after ensures 0 <= x <= EMPTY { assert x in room || x == item; }
  }

  lemma Stock(room: seq<int>, item: int)
    ensures item in room <==> Plates(room, item) > 0
  {
  }

  /** The part of the invariant that is about the cooks alone. */
  ghost predicate CookSide(c: Config, s: State)
    requires Shaped(c, s)
  {
    CooksInv(c, s) && RotaInv(c, s) && DepartureInv(c, s)
  }

  /** It depends on the cooks, on k.peek and on the rota, and on nothing else. */
  lemma CookSideFrame(c: Config, s: State, s': State)
    requires Shaped(c, s) && Shaped(c, s') && CookSide(c, s)
    requires s'.cooks == s.cooks && s'.plates == s.plates && s'.rota == s.rota
    ensures CookSide(c, s')
  {
    hide Total;
  }

  /** A kind is conserved by a step that moves no plate, no kitchen or counter token, and eats nothing. */
  lemma KindFrame(c: Config, s: State, s': State, f: Kind)
    requires Shaped(c, s) && Shaped(c, s') && KindInv(c, s, f)
    requires s'.cooks == s.cooks && s'.supplier == s.supplier && s'.sent == s.sent
    requires s'.kitchen == s.kitchen && s'.kFull == s.kFull
    requires s'.counter == s.counter && s'.cEmpty == s.cEmpty && s'.cFull == s.cFull
    requires Gathered(s', f) == Gathered(s, f) && Total(Meals(), s'.students) == Total(Meals(), s.students)
    ensures KindInv(c, s', f)
  {
    hide Total;
  }

  // ---------------------------------------------------------------- supplier

  /** The assertion at line 317: a k.empty token guarantees a free slot. */
  lemma SupplierFindsSlot(c: Config, s: State)
    requires c.Valid() && Inv(c, s) && s.supplier.Storing?
    ensures Next(s.kitchen, EMPTY) != -1
  {
    TotalAtLeast(Freeing(), s.cooks, 0);
    Stock(s.kitchen, EMPTY);
  }

  lemma SupplierKeepsKind(c: Config, s: State, f: Kind)
    requires c.Valid() && Inv(c, s) && Enabled(c, s, Supplier)
    ensures var s' := Exec(c, s, Supplier); Shaped(c, s') && KindInv(c, s', f)
  {
    hide Total, CooksInv, RotaInv, DepartureInv, PermitsInv, Next, KitchenInv;
    assert KindInv(c, s, f);
    match s.supplier
    case AwaitingSlot =>
    case Storing =>
      SupplierFindsSlot(c, s);
      RoomUpdate(s.kitchen, Next(s.kitchen, EMPTY), c.supply[s.sent], f);
    case Signalling =>
      assert c.supply[..s.sent + 1] == c.supply[..s.sent] + [c.supply[s.sent]];
  }

  lemma SupplierKeepsRooms(c: Config, s: State)
    requires c.Valid() && Inv(c, s) && Enabled(c, s, Supplier)
    ensures var s' := Exec(c, s, Supplier); Shaped(c, s') && RoomsInv(c, s') && KitchenInv(c, s')
  {
    hide Total, KindInv, CooksInv, RotaInv, DepartureInv, PermitsInv, Next;
    if s.supplier.Storing? {
      SupplierFindsSlot(c, s);
      RoomUpdate(s.kitchen, Next(s.kitchen, EMPTY), c.supply[s.sent], EMPTY);
      RoomStays(s.kitchen, Next(s.kitchen, EMPTY), c.supply[s.sent]);
    }
  }

  lemma SupplierKeeps(c: Config, s: State)
    requires c.Valid() && Inv(c, s) && Enabled(c, s, Supplier)
    ensures Inv(c, Exec(c, s, Supplier))
  {
    hide Total, KindInv, CooksInv, RotaInv, DepartureInv, KitchenInv, RoomsInv, Next;
    var s' := Exec(c, s, Supplier);
    SupplierKeepsRooms(c, s);
    CookSideFrame(c, s, s');
    forall f: Kind ensures KindInv(c, s', f) { SupplierKeepsKind(c, s, f); }
  }

  // ---------------------------------------------------------------- supervisor

  lemma SupervisorKeepsKind(c: Config, s: State, f: Kind)
    requires c.Valid() && Inv(c, s) && Enabled(c, s, Supervisor)
    ensures var s' := Exec(c, s, Supervisor); Shaped(c, s') && KindInv(c, s', f)
  {
    hide Total, CooksInv, RotaInv, DepartureInv, KitchenInv;
    assert KindInv(c, s, f);
  }

  lemma SupervisorKeepsPermits(c: Config, s: State)
    requires c.Valid() && Inv(c, s) && Enabled(c, s, Supervisor)
    ensures var s' := Exec(c, s, Supervisor);
      Shaped(c, s') && RoomsInv(c, s') && PermitsInv(c, s') && KitchenInv(c, s')
  {
    hide Total, CooksInv, RotaInv, DepartureInv, KindInv;
    TotalAtLeast(GraduateLining(), s.students, 0);
  }

  lemma SupervisorKeeps(c: Config, s: State)
    requires c.Valid() && Inv(c, s) && Enabled(c, s, Supervisor)
    ensures Inv(c, Exec(c, s, Supervisor))
  {
    hide Total, KindInv, CooksInv, RotaInv, DepartureInv, KitchenInv, RoomsInv, PermitsInv;
    var s' := Exec(c, s, Supervisor);
    SupervisorKeepsPermits(c, s);
    CookSideFrame(c, s, s');
    forall f: Kind ensures KindInv(c, s', f) { SupervisorKeepsKind(c, s, f); }
  }

  // ---------------------------------------------------------------- students

  /** A permit reserves one plate of each kind: as many plates of f lie on the counter as permits are out. */
  lemma PermitReservesPlate(c: Config, s: State, f: Kind)
    requires c.Valid() && Inv(c, s)
    ensures s.sFull[0] + s.sFull[1] + Total(AtCounter(), s.students) <= Plates(s.counter, f)
  {
    assert KindInv(c, s, f);
    TotalAtLeast(Declaring(f), s.cooks, 0);
  }

  /** The assertion at line 465 holds for each of the three plates, and the three takes commute with counting. */
  lemma CollectingSucceeds(c: Config, s: State, j: nat)
    requires c.Valid() && Inv(c, s) && j < |s.students| && s.students[j].at.Collecting?
    ensures var after := TakeThree(s.counter, 0);
      && |after| == |s.counter| > 0
      && (forall f: Kind :: Plates(after, f) == Plates(s.counter, f) - 1)
      && (Holds(after))
  {
    TotalCovers(AtCounter(), s.students, j, j);
    forall f: Kind ensures f in s.counter {
      PermitReservesPlate(c, s, f);
      Stock(s.counter, f);
    }
    TakingThree(s.counter);
  }

  /** Taking one plate of kind f off a room that has one. */
  lemma TakingOne(room: seq<int>, f: Kind)
    requires f in room
    requires Holds(room)
    ensures var slot := Next(room, f); slot != -1 && var after := room[slot := EMPTY];
      && TakeThree(room, f) == TakeThree(after, f + 1)
      && (forall g: Kind :: Plates(after, g) == Plates(room, g) - Bit(f == g))
      && (Holds(after))
  {
    hide Plates;
    var slot := Next(room, f);
    var after := room[slot := EMPTY];
    forall g: Kind ensures Plates(after, g) == Plates(room, g) - Bit(f == g) { RoomUpdate(room, slot, EMPTY, g); }
    RoomStays(room, slot, EMPTY);
  }

  lemma {:induction false} TakingThree(room: seq<int>)
    requires 0 in room && 1 in room && 2 in room
    requires Holds(room)
    ensures var after := TakeThree(room, 0);
      && |after| == |room|
      && (forall f: Kind :: Plates(after, f) == Plates(room, f) - 1)
      && (Holds(after))
  {
    var room1 := room[Next(room, 0) := EMPTY];
    TakingOne(room, 0);
    Stock(room, 1);
    Stock(room1, 1);
    var room2 := room1[Next(room1, 1) := EMPTY];
    TakingOne(room1, 1);
    Stock(room, 2);
    Stock(room2, 2);
    TakingOne(room2, 2);
  }

  /** The search at line 478: a table token guarantees a free table. */
  lemma StudentFindsTable(c: Config, s: State)
    requires c.Valid() && Inv(c, s)
    ensures Next(s.tables, EMPTY) != -1
  {
    assert s.tables[0] in s.tables;
  }

  lemma CollectingKeepsKind(c: Config, s: State, j: nat, f: Kind)
    requires c.Valid() && Inv(c, s) && Enabled(c, s, StudentNo(j)) && s.students[j].at.Collecting?
    ensures var s' := Exec(c, s, StudentNo(j)); Shaped(c, s') && KindInv(c, s', f)
  {
    hide Total, KitchenInv, CooksInv, RotaInv, DepartureInv, PermitsInv, TakeThree, Next, RoomsInv;
    assert KindInv(c, s, f);
    CollectingSucceeds(c, s, j);
    TotalUpdate(Meals(), s.students, j, Exec(c, s, StudentNo(j)).students[j]);
  }

  lemma StudentKeepsKind(c: Config, s: State, j: nat, f: Kind)
    requires c.Valid() && Inv(c, s) && Enabled(c, s, StudentNo(j))
    ensures var s' := Exec(c, s, StudentNo(j)); Shaped(c, s') && KindInv(c, s', f)
  {
    hide Total, KitchenInv, CooksInv, RotaInv, DepartureInv, PermitsInv, TakeThree, Next, RoomsInv, KindInv;
    assert KindInv(c, s, f);
    var s' := Exec(c, s, StudentNo(j));
    if s.students[j].at.Collecting? {
      CollectingKeepsKind(c, s, j, f);
    } else {
      TotalUpdate(Meals(), s.students, j, s'.students[j]);
      if s.students[j].at.Eating? { StudentFindsTable(c, s); }
      KindFrame(c, s, s', f);
    }
  }

  lemma StudentKeepsRooms(c: Config, s: State, j: nat)
    requires c.Valid() && Inv(c, s) && Enabled(c, s, StudentNo(j))
    ensures var s' := Exec(c, s, StudentNo(j)); Shaped(c, s') && RoomsInv(c, s') && KitchenInv(c, s')
  {
    hide Total, KindInv, CooksInv, RotaInv, DepartureInv, PermitsInv, TakeThree, Next;
    if s.students[j].at.Collecting? { CollectingSucceeds(c, s, j); }
    if s.students[j].at.Eating? {
      StudentFindsTable(c, s);
      var slot := Next(s.tables, EMPTY);
      assert s.tables[slot := 1][slot := EMPTY] == s.tables;
    }
  }

  lemma LiningKeepsPermits(c: Config, s: State, j: nat)
    requires c.Valid() && Inv(c, s) && Enabled(c, s, StudentNo(j))
    requires var at := s.students[j].at; at.Registering? || at.Lining? || at.Hoping?
    ensures var s' := Exec(c, s, StudentNo(j)); Shaped(c, s') && PermitsInv(c, s')
  {
    hide Total, KindInv, KitchenInv, CooksInv, RotaInv, DepartureInv, TakeThree, Next;
    StudentMoves(s.students, j, Exec(c, s, StudentNo(j)).students[j]);
  }

  lemma CollectingKeepsPermits(c: Config, s: State, j: nat)
    requires c.Valid() && Inv(c, s) && Enabled(c, s, StudentNo(j)) && s.students[j].at.Collecting?
    ensures var s' := Exec(c, s, StudentNo(j)); Shaped(c, s') && PermitsInv(c, s')
  {
    hide Total, KindInv, KitchenInv, CooksInv, RotaInv, DepartureInv, TakeThree, Next, RoomsInv;
    CollectingSucceeds(c, s, j);
    StudentMoves(s.students, j, Exec(c, s, StudentNo(j)).students[j]);
  }

  lemma EatingKeepsPermits(c: Config, s: State, j: nat)
    requires c.Valid() && Inv(c, s) && Enabled(c, s, StudentNo(j))
    requires var at := s.students[j].at; at.Seating? || at.Eating? || at.Standing?
    ensures var s' := Exec(c, s, StudentNo(j)); Shaped(c, s') && PermitsInv(c, s')
  {
    hide Total, KindInv, KitchenInv, CooksInv, RotaInv, DepartureInv, TakeThree, Next, RoomsInv;
    StudentFindsTable(c, s);
    StudentMoves(s.students, j, Exec(c, s, StudentNo(j)).students[j]);
  }

  lemma StudentKeeps(c: Config, s: State, j: nat)
    requires c.Valid() && Inv(c, s) && Enabled(c, s, StudentNo(j))
    ensures Inv(c, Exec(c, s, StudentNo(j)))
  {
    hide Total, KindInv, CooksInv, RotaInv, DepartureInv, KitchenInv, RoomsInv, PermitsInv, TakeThree, Next;
    var s' := Exec(c, s, StudentNo(j));
    StudentKeepsRooms(c, s, j);
    if s.students[j].at.Registering? || s.students[j].at.Lining? || s.students[j].at.Hoping? {
      LiningKeepsPermits(c, s, j);
    } else if s.students[j].at.Collecting? {
      CollectingKeepsPermits(c, s, j);
    } else {
      EatingKeepsPermits(c, s, j);
    }
    CookSideFrame(c, s, s');
    forall f: Kind ensures KindInv(c, s', f) { StudentKeepsKind(c, s, j, f); }
  }

  // ---------------------------------------------------------------- cooks

  /** The search at line 424: a c.empty token guarantees a free slot on the counter. */
  lemma CookFindsSlot(c: Config, s: State, i: nat)
    requires c.Valid() && Inv(c, s) && i < |s.cooks| && s.cooks[i].at.Serving?
    ensures Next(s.counter, EMPTY) != -1
  {
    hide CooksInv, RotaInv, DepartureInv, PermitsInv, KitchenInv, Next, Total;
    var f := s.cooks[i].at.food;
    TotalCovers(Putting(f), s.cooks, i, i);
    forall g: Kind
      ensures Plates(s.counter, g) + Total(Putting(g), s.cooks) <= c.Share(g) && 0 <= Total(Putting(g), s.cooks)
    {
      assert KindInv(c, s, g);
      TotalAtLeast(Putting(g), s.cooks, 0);
    }
    RoomCounts(s.counter);
    Stock(s.counter, EMPTY);
    assert c.Share(0) + c.Share(1) + c.Share(2) == c.S;
    assert f == 0 || f == 1 || f == 2;
  }

  /** Until the first cook goes home every k.full[f] token stands for a plate, so no search fails. */
  lemma SearchSucceeds(c: Config, s: State, i: nat)
    requires c.Valid() && Inv(c, s) && i < |s.cooks| && s.cooks[i].at.Searching?
    requires Total(Gone(), s.cooks) == 0
    ensures Next(s.kitchen, s.cooks[i].at.food) != -1
  {
    hide CooksInv, RotaInv, DepartureInv, PermitsInv, KitchenInv, Next, Total;
    var f := s.cooks[i].at.food;
    assert KindInv(c, s, f);
    TotalCovers(Holding(f), s.cooks, i, i);
    TotalMonotone(Released(f), Gone(), s.cooks);
    Stock(s.kitchen, f);
  }

  lemma LoopingKeepsKind(c: Config, s: State, i: nat, f: Kind)
    requires c.Valid() && Inv(c, s) && Enabled(c, s, CookNo(i))
    requires var at := s.cooks[i].at; at.Looping? || at.Picking? || at.Returning?
    ensures var s' := Exec(c, s, CookNo(i)); Shaped(c, s') && KindInv(c, s', f)
  {
    hide CooksInv, RotaInv, DepartureInv, PermitsInv, KitchenInv, Next, Total, RoomsInv;
    assert KindInv(c, s, f);
    CookMovesKind(c.Quota(), s.cooks, i, Exec(c, s, CookNo(i)).cooks[i], f);
  }

  lemma WaitingKeepsKind(c: Config, s: State, i: nat, f: Kind)
    requires c.Valid() && Inv(c, s) && Enabled(c, s, CookNo(i)) && s.cooks[i].at.Waiting?
    ensures var s' := Exec(c, s, CookNo(i)); Shaped(c, s') && KindInv(c, s', f)
  {
    hide CooksInv, RotaInv, DepartureInv, PermitsInv, KitchenInv, Next, Total, RoomsInv;
    assert KindInv(c, s, f);
    CookMovesKind(c.Quota(), s.cooks, i, Exec(c, s, CookNo(i)).cooks[i], f);
  }

  lemma SearchingKeepsKind(c: Config, s: State, i: nat, f: Kind)
    requires c.Valid() && Inv(c, s) && Enabled(c, s, CookNo(i)) && s.cooks[i].at.Searching?
    ensures var s' := Exec(c, s, CookNo(i)); Shaped(c, s') && KindInv(c, s', f)
  {
    hide CooksInv, RotaInv, DepartureInv, PermitsInv, KitchenInv, Next, Total, RoomsInv;
    assert KindInv(c, s, f);
    CookMovesKind(c.Quota(), s.cooks, i, Exec(c, s, CookNo(i)).cooks[i], f);
    var slot := Next(s.kitchen, s.cooks[i].at.food);
    if slot != -1 { RoomUpdate(s.kitchen, slot, EMPTY, f); }
  }

  lemma DeliveringKeepsKind(c: Config, s: State, i: nat, f: Kind)
    requires c.Valid() && Inv(c, s) && Enabled(c, s, CookNo(i))
    requires var at := s.cooks[i].at; at.Leaving? || at.Queuing? || at.Departing?
    ensures var s' := Exec(c, s, CookNo(i)); Shaped(c, s') && KindInv(c, s', f)
  {
    hide CooksInv, RotaInv, DepartureInv, PermitsInv, KitchenInv, Next, Total, RoomsInv;
    assert KindInv(c, s, f);
    CookMovesKind(c.Quota(), s.cooks, i, Exec(c, s, CookNo(i)).cooks[i], f);
  }

  lemma ServingKeepsKind(c: Config, s: State, i: nat, f: Kind)
    requires c.Valid() && Inv(c, s) && Enabled(c, s, CookNo(i))
    requires var at := s.cooks[i].at; at.Serving? || at.Announcing?
    ensures var s' := Exec(c, s, CookNo(i)); Shaped(c, s') && KindInv(c, s', f)
  {
    hide CooksInv, RotaInv, DepartureInv, PermitsInv, KitchenInv, Next, Total, RoomsInv;
    assert KindInv(c, s, f);
    if s.cooks[i].at.Serving? {
      CookFindsSlot(c, s, i);
      RoomUpdate(s.counter, Next(s.counter, EMPTY), s.cooks[i].at.food, f);
    }
    CookMovesKind(c.Quota(), s.cooks, i, Exec(c, s, CookNo(i)).cooks[i], f);
  }

  lemma CookKeepsKind(c: Config, s: State, i: nat, f: Kind)
    requires c.Valid() && Inv(c, s) && Enabled(c, s, CookNo(i))
    ensures var s' := Exec(c, s, CookNo(i)); Shaped(c, s') && KindInv(c, s', f)
  {
    hide Inv, Exec, KindInv, Config.Valid;
    var at := s.cooks[i].at;
    if at.Looping? || at.Picking? || at.Returning? { LoopingKeepsKind(c, s, i, f); }
    if at.Waiting? { WaitingKeepsKind(c, s, i, f); }
    if at.Searching? { SearchingKeepsKind(c, s, i, f); }
    if at.Leaving? || at.Queuing? || at.Departing? { DeliveringKeepsKind(c, s, i, f); }
    if at.Serving? || at.Announcing? { ServingKeepsKind(c, s, i, f); }
  }

  /** k.peek is never below the number of plates in the kitchen. */
  lemma PlatesLeft(c: Config, s: State)
    requires c.Valid() && Inv(c, s)
    ensures Plates(s.kitchen, 0) + Plates(s.kitchen, 1) + Plates(s.kitchen, 2) <= s.plates
    ensures s.plates == 0 ==> forall f: Kind :: Placed(c, s, f) + InHand(s, f) == c.Quota()
  {
    hide CooksInv, RotaInv, DepartureInv, PermitsInv, Total, RoomsInv, Plates, Supplied;
    FetchedSplits(c.Quota(), s.cooks);
    forall f: Kind
      ensures Plates(s.kitchen, f) <= c.Quota() - Placed(c, s, f) - InHand(s, f)
    {
      assert KindInv(c, s, f);
      SupplyBound(c, s, f);
    }
    forall f: Kind | s.plates == 0 ensures Placed(c, s, f) + InHand(s, f) == c.Quota() {
      assert f == 0 || f == 1 || f == 2;
      assert Plates(s.kitchen, 0) >= 0 && Plates(s.kitchen, 1) >= 0 && Plates(s.kitchen, 2) >= 0;
    }
  }

  lemma LoopingKeepsRooms(c: Config, s: State, i: nat)
    requires c.Valid() && Inv(c, s) && Enabled(c, s, CookNo(i))
    requires var at := s.cooks[i].at; at.Looping? || at.Picking? || at.Returning?
    ensures var s' := Exec(c, s, CookNo(i)); Shaped(c, s') && RoomsInv(c, s') && KitchenInv(c, s')
    ensures var s' := Exec(c, s, CookNo(i)); CookOk(c.Quota(), s'.plates, s'.cooks[i])
  {
    hide RotaInv, DepartureInv, PermitsInv, Next, Total, KindInv;
    assert CookOk(c.Quota(), s.plates, s.cooks[i]);
    var x := Exec(c, s, CookNo(i)).cooks[i];
    TotalUpdate(Fetched(c.Quota()), s.cooks, i, x);
    TotalUpdate(Freeing(), s.cooks, i, x);
  }

  lemma FetchingKeepsRooms(c: Config, s: State, i: nat)
    requires c.Valid() && Inv(c, s) && Enabled(c, s, CookNo(i))
    requires var at := s.cooks[i].at; at.Waiting? || at.Searching?
    ensures var s' := Exec(c, s, CookNo(i)); Shaped(c, s') && RoomsInv(c, s') && KitchenInv(c, s')
    ensures var s' := Exec(c, s, CookNo(i)); CookOk(c.Quota(), s'.plates, s'.cooks[i])
  {
    hide RotaInv, DepartureInv, PermitsInv, Next, Total, KindInv;
    assert CookOk(c.Quota(), s.plates, s.cooks[i]);
    if s.cooks[i].at.Searching? {
      var slot := Next(s.kitchen, s.cooks[i].at.food);
      if slot != -1 {
        RoomUpdate(s.kitchen, slot, EMPTY, EMPTY);
        RoomStays(s.kitchen, slot, EMPTY);
      }
    }
    var x := Exec(c, s, CookNo(i)).cooks[i];
    TotalUpdate(Fetched(c.Quota()), s.cooks, i, x);
    TotalUpdate(Freeing(), s.cooks, i, x);
  }

  lemma DeliveringKeepsRooms(c: Config, s: State, i: nat)
    requires c.Valid() && Inv(c, s) && Enabled(c, s, CookNo(i))
    requires var at := s.cooks[i].at; at.Leaving? || at.Queuing? || at.Departing?
    ensures var s' := Exec(c, s, CookNo(i)); Shaped(c, s') && RoomsInv(c, s') && KitchenInv(c, s')
    ensures var s' := Exec(c, s, CookNo(i)); CookOk(c.Quota(), s'.plates, s'.cooks[i])
  {
    hide RotaInv, DepartureInv, PermitsInv, Next, Total, KindInv;
    assert CookOk(c.Quota(), s.plates, s.cooks[i]);
    var x := Exec(c, s, CookNo(i)).cooks[i];
    TotalUpdate(Fetched(c.Quota()), s.cooks, i, x);
    TotalUpdate(Freeing(), s.cooks, i, x);
  }

  lemma ServingKeepsRooms(c: Config, s: State, i: nat)
    requires c.Valid() && Inv(c, s) && Enabled(c, s, CookNo(i))
    requires var at := s.cooks[i].at; at.Serving? || at.Announcing?
    ensures var s' := Exec(c, s, CookNo(i)); Shaped(c, s') && RoomsInv(c, s') && KitchenInv(c, s')
    ensures var s' := Exec(c, s, CookNo(i)); CookOk(c.Quota(), s'.plates, s'.cooks[i])
  {
    hide RotaInv, DepartureInv, PermitsInv, Next, Total, KindInv;
    assert CookOk(c.Quota(), s.plates, s.cooks[i]);
    if s.cooks[i].at.Serving? {
      CookFindsSlot(c, s, i);
      RoomStays(s.counter, Next(s.counter, EMPTY), s.cooks[i].at.food);
    }
    var x := Exec(c, s, CookNo(i)).cooks[i];
    TotalUpdate(Fetched(c.Quota()), s.cooks, i, x);
    TotalUpdate(Freeing(), s.cooks, i, x);
  }

  lemma CookKeepsRooms(c: Config, s: State, i: nat)
    requires c.Valid() && Inv(c, s) && Enabled(c, s, CookNo(i))
    ensures var s' := Exec(c, s, CookNo(i)); Shaped(c, s') && RoomsInv(c, s') && KitchenInv(c, s')
    ensures var s' := Exec(c, s, CookNo(i)); CookOk(c.Quota(), s'.plates, s'.cooks[i])
  {
    hide Inv, Exec, CookOk, RoomsInv, KitchenInv, Config.Valid;
    var at := s.cooks[i].at;
    if at.Looping? || at.Picking? || at.Returning? { LoopingKeepsRooms(c, s, i); }
    if at.Waiting? || at.Searching? { FetchingKeepsRooms(c, s, i); }
    if at.Leaving? || at.Queuing? || at.Departing? { DeliveringKeepsRooms(c, s, i); }
    if at.Serving? || at.Announcing? { ServingKeepsRooms(c, s, i); }
  }

  lemma OtherCooksStay(c: Config, s: State, i: nat)
    requires Enabled(c, s, CookNo(i))
    ensures var s' := Exec(c, s, CookNo(i));
      |s'.cooks| == |s.cooks| && s'.cooks == s.cooks[i := s'.cooks[i]]
  {
    hide Next;
    var s' := CookStep(c, s, i);
    if !s.cooks[i].at.Serving? {
      assert s'.cooks == s.cooks[i := Cook(s'.cooks[i].at, s.cooks[i].left)];
    }
  }

  lemma PeekStaysZero(c: Config, s: State, i: nat)
    requires c.Valid() && Inv(c, s) && Enabled(c, s, CookNo(i)) && s.plates == 0
    ensures Exec(c, s, CookNo(i)).plates == 0
  {
    hide RotaInv, DepartureInv, PermitsInv, Next, Total, KindInv, KitchenInv, RoomsInv, CooksInv, Plates;
    if s.cooks[i].at.Searching? {
      PlatesLeft(c, s);
      Stock(s.kitchen, s.cooks[i].at.food);
    }
  }

  lemma CookKeepsCooks(c: Config, s: State, i: nat)
    requires c.Valid() && Inv(c, s) && Enabled(c, s, CookNo(i))
    ensures var s' := Exec(c, s, CookNo(i)); CooksInv(c, s')
  {
    hide RotaInv, DepartureInv, PermitsInv, Next, Total, KindInv, KitchenInv, RoomsInv, Exec;
    CookKeepsRooms(c, s, i);
    OtherCooksStay(c, s, i);
    if s.plates == 0 { PeekStaysZero(c, s, i); }
    var s' := Exec(c, s, CookNo(i));
    forall k | 0 <= k < |s'.cooks| ensures CookOk(c.Quota(), s'.plates, s'.cooks[k]) {
      assert CookOk(c.Quota(), s.plates, s.cooks[k]);
    }
  }

  // ---------------------------------------------------------------- the rota

  /** While nobody has gone, only a pick assigns anything, and it assigns what the rota shows. */
  ghost predicate AssignedOnlyByPick(c: Config, s: State, i: nat, f: Kind)
    requires Enabled(c, s, CookNo(i))
  {
    var s', at := Exec(c, s, CookNo(i)), s.cooks[i].at;
    s'.cooks[i].at.Departing? || Assigned(c, s', f) == Assigned(c, s, f) + Bit(at.Picking? && NextKind(s.rota) == f)
  }

  lemma LoopingAssigns(c: Config, s: State, i: nat, f: Kind)
    requires Enabled(c, s, CookNo(i)) && CooksInv(c, s)
    requires var at := s.cooks[i].at; at.Looping? || at.Picking?
    ensures AssignedOnlyByPick(c, s, i, f)
  {
    hide Next, Total, Plates;
    TotalUpdate(Assignments(c.Quota(), f), s.cooks, i, Exec(c, s, CookNo(i)).cooks[i]);
  }

  lemma FetchingAssigns(c: Config, s: State, i: nat, f: Kind)
    requires c.Valid() && Inv(c, s) && Enabled(c, s, CookNo(i)) && Total(Gone(), s.cooks) == 0
    requires var at := s.cooks[i].at; at.Waiting? || at.Searching? || at.Leaving?
    ensures AssignedOnlyByPick(c, s, i, f)
  {
    hide DepartureInv, PermitsInv, Next, Total, KindInv, KitchenInv, RoomsInv, Plates, RotaInv;
    if s.cooks[i].at.Searching? { SearchSucceeds(c, s, i); }
    TotalUpdate(Assignments(c.Quota(), f), s.cooks, i, Exec(c, s, CookNo(i)).cooks[i]);
  }

  lemma ServingAssigns(c: Config, s: State, i: nat, f: Kind)
    requires c.Valid() && Inv(c, s) && Enabled(c, s, CookNo(i))
    requires var at := s.cooks[i].at; at.Queuing? || at.Serving? || at.Announcing?
    ensures AssignedOnlyByPick(c, s, i, f)
  {
    hide DepartureInv, PermitsInv, Next, Total, KindInv, KitchenInv, RoomsInv, Plates, RotaInv;
    if s.cooks[i].at.Serving? { CookFindsSlot(c, s, i); }
    TotalUpdate(Assignments(c.Quota(), f), s.cooks, i, Exec(c, s, CookNo(i)).cooks[i]);
  }

  lemma CookAssigns(c: Config, s: State, i: nat, f: Kind)
    requires c.Valid() && Inv(c, s) && Enabled(c, s, CookNo(i)) && Total(Gone(), s.cooks) == 0
    ensures AssignedOnlyByPick(c, s, i, f)
  {
    hide AssignedOnlyByPick, DepartureInv, PermitsInv, Next, Total, KindInv, KitchenInv, RoomsInv, Plates;
    var at := s.cooks[i].at;
    TotalCovers(Gone(), s.cooks, i, i);
    if at.Looping? || at.Picking? { LoopingAssigns(c, s, i, f); }
    if at.Waiting? || at.Searching? || at.Leaving? { FetchingAssigns(c, s, i, f); }
    if at.Queuing? || at.Serving? || at.Announcing? { ServingAssigns(c, s, i, f); }
  }

  /** Who stays at work, and whether the last plate has somebody to report it. */
  ghost predicate WorkGoesOn(c: Config, s: State, i: nat)
    requires Enabled(c, s, CookNo(i))
  {
    var s' := Exec(c, s, CookNo(i));
    s'.cooks[i].at.Departing? ||
    (&& !s'.cooks[i].at.Returning?
     && NextKind(s'.rota) == (if s.cooks[i].at.Picking? then (NextKind(s.rota) + 1) % FOOD_KIND else NextKind(s.rota))
     && (s'.plates == 0 ==> Active()(s'.cooks[i]) == 1 || (s.plates == 0 && Active()(s.cooks[i]) == 0)))
  }

  lemma FetchingGoesOn(c: Config, s: State, i: nat)
    requires c.Valid() && Inv(c, s) && Enabled(c, s, CookNo(i)) && Total(Gone(), s.cooks) == 0
    requires var at := s.cooks[i].at; at.Looping? || at.Picking? || at.Waiting? || at.Searching?
    ensures WorkGoesOn(c, s, i)
  {
    hide DepartureInv, PermitsInv, Next, Total, KindInv, KitchenInv, RoomsInv, Plates, RotaInv;
    if s.cooks[i].at.Searching? { SearchSucceeds(c, s, i); }
  }

  lemma DeliveringGoesOn(c: Config, s: State, i: nat)
    requires c.Valid() && Inv(c, s) && Enabled(c, s, CookNo(i))
    requires var at := s.cooks[i].at; at.Leaving? || at.Queuing? || at.Serving? || at.Announcing?
    ensures WorkGoesOn(c, s, i)
  {
    hide DepartureInv, PermitsInv, Next, Total, KindInv, KitchenInv, RoomsInv, Plates, RotaInv;
    if s.cooks[i].at.Serving? { CookFindsSlot(c, s, i); }
  }

  lemma CookGoesOn(c: Config, s: State, i: nat)
    requires c.Valid() && Inv(c, s) && Enabled(c, s, CookNo(i)) && Total(Gone(), s.cooks) == 0
    ensures WorkGoesOn(c, s, i)
  {
    hide WorkGoesOn, DepartureInv, PermitsInv, Next, Total, KindInv, KitchenInv, RoomsInv, Plates;
    TotalCovers(Gone(), s.cooks, i, i);
    var at := s.cooks[i].at;
    if at.Looping? || at.Picking? || at.Waiting? || at.Searching? {
      FetchingGoesOn(c, s, i);
    } else {
      DeliveringGoesOn(c, s, i);
    }
  }

  lemma GoneStaysGone(c: Config, s: State, i: nat)
    requires Enabled(c, s, CookNo(i))
    ensures Gone()(s.cooks[i]) <= Gone()(Exec(c, s, CookNo(i)).cooks[i])
    ensures Total(Gone(), s.cooks) <= Total(Gone(), Exec(c, s, CookNo(i)).cooks)
  {
    hide Total, Next;
    OtherCooksStay(c, s, i);
    TotalUpdate(Gone(), s.cooks, i, Exec(c, s, CookNo(i)).cooks[i]);
  }

  lemma CookKeepsRota(c: Config, s: State, i: nat)
    requires c.Valid() && Inv(c, s) && Enabled(c, s, CookNo(i))
    ensures var s' := Exec(c, s, CookNo(i)); Shaped(c, s') && RotaInv(c, s')
  {
    hide Exec, DepartureInv, PermitsInv, Next, Total, KindInv, KitchenInv, RoomsInv, Plates, Assigned;
    var s' := Exec(c, s, CookNo(i));
    CookKeepsRooms(c, s, i);
    OtherCooksStay(c, s, i);
    GoneStaysGone(c, s, i);
    TotalUpdate(Active(), s.cooks, i, s'.cooks[i]);
    TotalAtLeast(Gone(), s.cooks, 0);
    TotalCovers(Active(), s.cooks, i, i);
    if Total(Gone(), s'.cooks) == 0 {
      TotalCovers(Gone(), s'.cooks, i, i);
      TotalAtLeast(Active(), s'.cooks, 0);
      TotalCovers(Active(), s'.cooks, i, i);
      CookAssigns(c, s, i, 0);
      CookAssigns(c, s, i, 1);
      CookAssigns(c, s, i, 2);
      CookGoesOn(c, s, i);
    }
  }

  // ---------------------------------------------------------------- departures

  /** A cook that is not busy leaves at most N - 1 busy ones. */
  lemma {:induction false} OthersBusy(cooks: seq<Cook>, i: nat)
    requires i < |cooks| && Job(cooks[i].at) == -1
    ensures Total(Working(0), cooks) + Total(Working(1), cooks) + Total(Working(2), cooks) < |cooks|
  {
    BusySplits(cooks);
    TotalAtMost(Busy(), cooks, 1);
    assert Busy()(cooks[i]) != 1;
  }

  /** The first cook to go home leaves fewer plates to place than there are cooks at work. */
  lemma FirstDeparture(c: Config, s: State, i: nat)
    requires c.Valid() && Inv(c, s) && i < |s.cooks| && Total(Gone(), s.cooks) == 0
    requires || (s.cooks[i].at.Looping? && s.plates == 0)
             || (s.cooks[i].at.Picking? && s.cooks[i].left[NextKind(s.rota)] == 0)
    ensures Unplaced(c, s, 0) + Unplaced(c, s, 1) + Unplaced(c, s, 2) < c.N
  {
    hide PermitsInv, KindInv, KitchenInv, RoomsInv, Plates, Total;
    OthersBusy(s.cooks, i);
    forall f: Kind ensures Unplaced(c, s, f) <= Total(Working(f), s.cooks) {
      if s.cooks[i].at.Looping? {
        PlatesLeft(c, s);
        TotalMonotone(Carrying(f), Working(f), s.cooks);
      } else {
        PickerLeaves(c, s, i, f);
      }
    }
  }

  lemma PickerLeaves(c: Config, s: State, i: nat, f: Kind)
    requires c.Valid() && Inv(c, s) && i < |s.cooks| && Total(Gone(), s.cooks) == 0
    requires s.cooks[i].left[NextKind(s.rota)] == 0
    ensures Unplaced(c, s, f) <= Total(Working(f), s.cooks)
  {
    hide PermitsInv, KindInv, KitchenInv, RoomsInv, Plates, Total;
    var g, q := NextKind(s.rota), c.Quota();
    forall k | 0 <= k < |s.cooks| ensures 0 <= Delivered(q, g)(s.cooks[k]) {
      assert CookOk(q, s.plates, s.cooks[k]);
    }
    TotalCovers(Delivered(q, g), s.cooks, i, i);
    TotalAtLeast(Working(g), s.cooks, 0);
    AssignmentsSplit(q, s.cooks, f);
    AssignmentsSplit(q, s.cooks, g);
    assert f == 0 || f == 1 || f == 2;
    assert g == 0 || g == 1 || g == 2;
  }

  /** Who goes home in this step, and why. */
  lemma CookLeaves(c: Config, s: State, i: nat)
    requires c.Valid() && Inv(c, s) && Enabled(c, s, CookNo(i)) && Gone()(s.cooks[i]) == 0
    ensures Gone()(Exec(c, s, CookNo(i)).cooks[i]) == 1 ==>
      || (s.cooks[i].at.Looping? && s.plates == 0)
      || (s.cooks[i].at.Picking? && s.cooks[i].left[NextKind(s.rota)] == 0)
  {
    hide Total, Next, DepartureInv, PermitsInv, KindInv, KitchenInv, Plates, RotaInv;
    if s.cooks[i].at.Serving? { CookFindsSlot(c, s, i); }
  }

  /** No plate is ever taken off the counter and put back among the unplaced. */
  lemma PlacedGrows(c: Config, s: State, i: nat, f: Kind)
    requires c.Valid() && Inv(c, s) && Enabled(c, s, CookNo(i))
    ensures Placed(c, s, f) <= Placed(c, Exec(c, s, CookNo(i)), f)
  {
    hide Total, Next, DepartureInv, PermitsInv, KindInv, KitchenInv, Plates, RotaInv, RoomsInv, CooksInv;
    OtherCooksStay(c, s, i);
    TotalUpdate(Delivered(c.Quota(), f), s.cooks, i, Exec(c, s, CookNo(i)).cooks[i]);
  }

  lemma CookKeepsDepartures(c: Config, s: State, i: nat)
    requires c.Valid() && Inv(c, s) && Enabled(c, s, CookNo(i))
    ensures var s' := Exec(c, s, CookNo(i)); Shaped(c, s') && DepartureInv(c, s')
  {
    hide Exec, PermitsInv, Next, Total, KindInv, KitchenInv, RoomsInv, Plates, Assigned, RotaInv, Placed;
    var s' := Exec(c, s, CookNo(i));
    CookKeepsRooms(c, s, i);
    OtherCooksStay(c, s, i);
    GoneStaysGone(c, s, i);
    TotalUpdate(Gone(), s.cooks, i, s'.cooks[i]);
    TotalAtLeast(Gone(), s.cooks, 0);
    TotalCovers(Gone(), s.cooks, i, i);
    if Total(Gone(), s.cooks) == 0 && Total(Gone(), s'.cooks) > 0 {
      CookLeaves(c, s, i);
      FirstDeparture(c, s, i);
    }
    PlacedGrows(c, s, i, 0);
    PlacedGrows(c, s, i, 1);
    PlacedGrows(c, s, i, 2);
  }

  lemma PermitsFrame(c: Config, s: State, s': State)
    requires Shaped(c, s) && Shaped(c, s') && PermitsInv(c, s)
    requires s'.students == s.students && s'.supervisor == s.supervisor && s'.served == s.served
    requires s'.graduates == s.graduates && s'.sEmpty == s.sEmpty && s'.sFull == s.sFull && s'.tEmpty == s.tEmpty
    ensures PermitsInv(c, s')
  {
    hide Total;
  }

  lemma CookKeepsPermits(c: Config, s: State, i: nat)
    requires c.Valid() && Inv(c, s) && Enabled(c, s, CookNo(i))
    ensures var s' := Exec(c, s, CookNo(i)); Shaped(c, s') && PermitsInv(c, s')
  {
    hide CooksInv, Next, Total, KindInv, KitchenInv, RoomsInv, Plates, RotaInv, DepartureInv, PermitsInv;
    CookKeepsRooms(c, s, i);
    PermitsFrame(c, s, Exec(c, s, CookNo(i)));
  }

  lemma CookKeeps(c: Config, s: State, i: nat)
    requires c.Valid() && Inv(c, s) && Enabled(c, s, CookNo(i))
    ensures Inv(c, Exec(c, s, CookNo(i)))
  {
    hide Exec, PermitsInv, Total, KindInv, KitchenInv, RoomsInv, RotaInv, DepartureInv, CooksInv;
    CookKeepsRooms(c, s, i);
    CookKeepsCooks(c, s, i);
    CookKeepsRota(c, s, i);
    CookKeepsDepartures(c, s, i);
    CookKeepsPermits(c, s, i);
    forall f: Kind ensures KindInv(c, Exec(c, s, CookNo(i)), f) { CookKeepsKind(c, s, i, f); }
  }

  // ---------------------------------------------------------------- runs

  /** Every step of every process keeps the invariant. */
  lemma StepKeeps(c: Config, s: State, p: Process)
    requires c.Valid() && Inv(c, s) && Enabled(c, s, p)
    ensures Inv(c, Exec(c, s, p))
  {
    hide Exec, Inv, Config.Valid;
    match p
    case Supplier => SupplierKeeps(c, s);
    case Supervisor => SupervisorKeeps(c, s);
    case CookNo(i) => CookKeeps(c, s, i);
    case StudentNo(j) => StudentKeeps(c, s, j);
  }

  /** Some run ends in s. */
  ghost predicate Reachable(c: Config, s: State) {
    exists states :: Run(c, states) && states[|states| - 1] == s
  }

  lemma ReachableInv(c: Config, s: State)
    requires c.Valid() && Reachable(c, s)
    ensures Inv(c, s)
  {
    hide Inv, Config.Valid;
    var states :| Run(c, states) && states[|states| - 1] == s;
    RunInv(c, states);
  }

  /** Every state of every run satisfies the invariant. */
  lemma {:induction false} RunInv(c: Config, states: seq<State>)
    requires c.Valid() && Run(c, states)
    ensures forall k :: 0 <= k < |states| ==> Inv(c, states[k])
  {
    hide Inv, Exec, Config.Valid;
    if |states| == 1 {
      InitInv(c);
    } else {
      var before := states[..|states| - 1];
      var last := states[|states| - 2];
      RunInv(c, before);
      assert before[|before| - 1] == last && Inv(c, last);
      assert Follows(c, last, states[|states| - 1]);
      var p :| Enabled(c, last, p) && states[|states| - 1] == Exec(c, last, p);
      StepKeeps(c, last, p);
      forall k | 0 <= k < |states| ensures Inv(c, states[k]) {
        if k < |before| { assert before[k] == states[k]; }
      }
    }
  }
}
