/** What every step of the mess hall keeps: token conservation, local counts, the rota and the departures. */
module MessHallInvariant {
  import opened Rooms
  import opened Tally
  import opened MessHall

  // ---------------------------------------------------------------- weights of a cook

  /** Plates of kind f this cook has put on the counter. */
  function Delivered(q: int, f: Kind): Cook -> int { (k: Cook) => if f < |k.left| then q - k.left[f] else 0 }

  function Holding(f: Kind): Cook -> int { (k: Cook) => Bit(k.at == Searching(f) || k.at == Returning(f)) }

  function Carrying(f: Kind): Cook -> int {
    (k: Cook) => Bit(k.at == Leaving(f) || k.at == Queuing(f) || k.at == Serving(f))
  }

  function Putting(f: Kind): Cook -> int { (k: Cook) => Bit(k.at == Serving(f)) }

  function Declaring(f: Kind): Cook -> int { (k: Cook) => Bit(k.at == Announcing(f)) }

  /** Surplus k.full[f] posts of this cook on its way home. */
  function Released(f: Kind): Cook -> int {
    (k: Cook) => Bit(k.at.CookHome? || (k.at.Departing? && f < k.at.next))
  }

  /** The kind this cook has been assigned and has not yet put down, or -1. */
  function Job(at: CookAt): int {
    match at
    case Waiting(f) => f
    case Searching(f) => f
    case Returning(f) => f
    case Leaving(f) => f
    case Queuing(f) => f
    case Serving(f) => f
    case _ => -1
  }

  function Working(f: Kind): Cook -> int { (k: Cook) => Bit(Job(k.at) == f) }

  /** Plates of kind f this cook has placed or been assigned. */
  function Assignments(q: int, f: Kind): Cook -> int {
    (k: Cook) => (if f < |k.left| then q - k.left[f] else 0) + Bit(Job(k.at) == f)
  }

  function Busy(): Cook -> int { (k: Cook) => Bit(Job(k.at) != -1) }

  /** Plates this cook has taken from the kitchen. */
  function Fetched(q: int): Cook -> int {
    (k: Cook) => (if |k.left| == FOOD_KIND then FOOD_KIND * q - k.left[0] - k.left[1] - k.left[2] else 0)
                 + Bit(k.at.Leaving? || k.at.Queuing? || k.at.Serving?)
  }

  function Freeing(): Cook -> int { (k: Cook) => Bit(k.at.Leaving?) }

  function Gone(): Cook -> int { (k: Cook) => Bit(k.at.Departing? || k.at.CookHome?) }

  /** Between taking a plate and the next test of the loop. */
  function Active(): Cook -> int {
    (k: Cook) => Bit(k.at.Leaving? || k.at.Queuing? || k.at.Serving? || k.at.Announcing? || k.at.Looping?)
  }

  // ---------------------------------------------------------------- weights of a student

  function GraduateOpen(): Student -> int {
    (x: Student) => Bit(x.graduate && (x.at.Lining? || x.at.Hoping?))
  }

  function GraduateLining(): Student -> int { (x: Student) => Bit(x.graduate && x.at.Lining?) }

  function UndergraduateHoping(): Student -> int { (x: Student) => Bit(!x.graduate && x.at.Hoping?) }

  function AtCounter(): Student -> int { (x: Student) => Bit(x.at.Collecting?) }

  /** Meals this student has taken from the counter. */
  function Meals(): Student -> int {
    (x: Student) => x.round + Bit(x.at.Seating? || x.at.Eating? || x.at.Standing?)
  }

  function AtTable(): Student -> int { (x: Student) => Bit(x.at.Eating? || x.at.Standing?) }

  // ---------------------------------------------------------------- derived counts

  function Plates(room: seq<int>, item: int): nat { multiset(room)[item] }

  function Placed(c: Config, s: State, f: Kind): int { Total(Delivered(c.Quota(), f), s.cooks) }

  function InHand(s: State, f: Kind): int { Total(Carrying(f), s.cooks) }

  /** Plates of kind f the supplier has put in the kitchen. */
  function Supplied(c: Config, s: State, f: Kind): nat
    requires Shaped(c, s)
  {
    multiset(c.supply[..s.sent])[f] + Unsignalled(c, s, f)
  }

  /** 1 when the supplier has stored a plate of kind f and not yet posted k.full[f]. */
  function Unsignalled(c: Config, s: State, f: Kind): nat
    requires Shaped(c, s)
  {
    if s.supplier.Signalling? && c.supply[s.sent] == f then 1 else 0
  }

  /** c.full[f] tokens the supervisor has consumed. */
  function Gathered(s: State, f: Kind): int {
    s.served + (match s.supervisor
                case Gathering(k) => Bit(f < k)
                case SupervisorHome => 0
                case _ => 1)
  }

  function Unplaced(c: Config, s: State, f: Kind): int { c.Quota() - Placed(c, s, f) }

  // ---------------------------------------------------------------- the invariant

  /** Every slot of the room is empty or holds a plate. */
  predicate Holds(room: seq<int>) {
    forall x :: x in room ==> 0 <= x <= EMPTY
  }

  ghost predicate RoomsInv(c: Config, s: State)
    requires Shaped(c, s)
  {
    && !s.failed
    && Holds(s.kitchen) && Holds(s.counter)
    && (forall x :: x in s.tables ==> x == EMPTY)
    && s.kEmpty >= 0 && s.tEmpty >= 0 && s.sEmpty >= 0 && s.graduates >= 0
    && s.sFull[0] >= 0 && s.sFull[1] >= 0
  }

  /** A cook's own counts are in range, it has a plate to deliver of the kind it works on, and it
      has gone home only with everything out of the kitchen or a whole kind delivered by itself. */
  ghost predicate CookOk(q: nat, plates: int, k: Cook) {
    && |k.left| == FOOD_KIND
    && (forall f: Kind :: 0 <= k.left[f] <= q)
    && (Job(k.at) != -1 ==> 0 < k.left[Job(k.at)])
    && (Gone()(k) > 0 ==> plates == 0 || k.left[0] == 0 || k.left[1] == 0 || k.left[2] == 0)
  }

  ghost predicate CooksInv(c: Config, s: State) {
    forall i :: 0 <= i < |s.cooks| ==> CookOk(c.Quota(), s.plates, s.cooks[i])
  }

  /** Conservation of the plates of kind f and of the tokens that stand for them. */
  ghost predicate KindInv(c: Config, s: State, f: Kind)
    requires Shaped(c, s)
  {
    && s.kFull[f] >= 0 && s.cEmpty[f] >= 0 && s.cFull[f] >= 0
    && Plates(s.kitchen, f) + InHand(s, f) + Placed(c, s, f) == Supplied(c, s, f)
    && s.kFull[f] + Total(Holding(f), s.cooks) + Unsignalled(c, s, f)
       == Plates(s.kitchen, f) + Total(Released(f), s.cooks)
    && s.cEmpty[f] + Plates(s.counter, f) + Total(Putting(f), s.cooks) == c.Share(f)
    && s.cFull[f] + Total(Declaring(f), s.cooks) + Gathered(s, f) == Placed(c, s, f)
    && Plates(s.counter, f) + Total(Meals(), s.students) == Placed(c, s, f)
  }

  /** The plates still in the kitchen or to come, and the free slots of the kitchen. */
  ghost predicate KitchenInv(c: Config, s: State)
    requires Shaped(c, s)
  {
    && s.plates == FOOD_KIND * c.Quota() - Total(Fetched(c.Quota()), s.cooks)
    && s.kEmpty + Bit(s.supplier.Storing?) + Total(Freeing(), s.cooks) == Plates(s.kitchen, EMPTY)
  }

  /** Conservation of permits, of registrations by class, and of tables. */
  ghost predicate PermitsInv(c: Config, s: State)
    requires Shaped(c, s)
  {
    && s.served <= c.Quota() && (s.supervisor.SupervisorHome? <==> s.served == c.Quota())
    && (forall j :: 0 <= j < |s.students| ==>
          s.students[j].round <= c.L && (s.students[j].at.StudentHome? <==> s.students[j].round == c.L))
    && s.sFull[0] + s.sFull[1] + Total(AtCounter(), s.students) + Total(Meals(), s.students) == s.served
    && Total(GraduateOpen(), s.students) == s.graduates + s.sFull[1] + Bit(s.supervisor == Admitting(true))
    && Total(UndergraduateHoping(), s.students) + s.graduates
       == s.sFull[0] + Bit(s.supervisor == Admitting(false)) + Bit(s.supervisor.Choosing?)
          + s.sEmpty + Total(GraduateLining(), s.students)
    && s.graduates <= Bit(s.supervisor.Choosing?) + s.sEmpty + Total(GraduateLining(), s.students)
    && s.tEmpty + Total(AtTable(), s.students) == c.T
  }

  /** Assignments of kind f so far, as long as nobody has gone and no search has failed. */
  function Assigned(c: Config, s: State, f: Kind): int { Total(Assignments(c.Quota(), f), s.cooks) }

  /** Before anybody goes home the assignments follow the rota, so they are within one of each other. */
  ghost predicate RotaInv(c: Config, s: State)
    requires Shaped(c, s)
  {
    Total(Gone(), s.cooks) == 0 ==>
      && (forall i :: 0 <= i < |s.cooks| ==> !s.cooks[i].at.Returning?)
      && Assigned(c, s, 1) == Assigned(c, s, 0) - Bit(NextKind(s.rota) == 1)
      && Assigned(c, s, 2) == Assigned(c, s, 0) - Bit(NextKind(s.rota) != 0)
      && (s.plates == 0 ==> Total(Active(), s.cooks) > 0)
  }

  /** Once somebody has gone home, fewer plates are still to be placed than there are cooks. */
  ghost predicate DepartureInv(c: Config, s: State)
    requires Shaped(c, s)
  {
    Total(Gone(), s.cooks) > 0 ==> Unplaced(c, s, 0) + Unplaced(c, s, 1) + Unplaced(c, s, 2) < c.N
  }

  ghost predicate Inv(c: Config, s: State) {
    && Shaped(c, s) && RoomsInv(c, s) && CooksInv(c, s) && KitchenInv(c, s)
    && (forall f: Kind :: KindInv(c, s, f))
    && PermitsInv(c, s) && RotaInv(c, s) && DepartureInv(c, s)
  }

  // ---------------------------------------------------------------- consequences of one state

  /** A room whose slots hold plates or nothing: the four counts add up to its size. */
  lemma {:induction false} RoomCounts(room: seq<int>)
    requires Holds(room)
    ensures Plates(room, 0) + Plates(room, 1) + Plates(room, 2) + Plates(room, EMPTY) == |room|
  {
    if room != [] {
      var rest := room[1..];
      assert room == [room[0]] + rest;
      forall x | x in rest ensures 0 <= x <= EMPTY { assert x in room; }
      RoomCounts(rest);
      assert multiset(room) == multiset([room[0]]) + multiset(rest);
      assert forall k :: multiset([room[0]])[k] == Bit(k == room[0]);
      assert forall k :: Plates(room, k) == Bit(k == room[0]) + Plates(rest, k);
      assert room[0] in room;
    }
  }

  /** A prefix of the supply holds no more plates of a kind than the whole file. */
  lemma SupplyBound(c: Config, s: State, f: Kind)
    requires c.Valid() && Shaped(c, s)
    ensures Supplied(c, s, f) <= c.Quota()
    ensures s.supplier.SupplierHome? ==> Supplied(c, s, f) == c.Quota()
  {
    var sent, rest := c.supply[..s.sent], c.supply[s.sent..];
    assert c.supply == sent + rest;
    assert multiset(c.supply) == multiset(sent) + multiset(rest);
    if Unsignalled(c, s, f) == 1 {
      assert rest[0] == f;
      assert f in rest;
    }
    assert Unsignalled(c, s, f) <= multiset(rest)[f];
    assert multiset(c.supply)[f] == c.Quota();
    if s.sent == |c.supply| {
      assert c.supply == sent;
    }
  }

  /** No kind is placed more often than it is supplied, and no more of it is carried than is left to place. */
  lemma PlacedBound(c: Config, s: State, f: Kind)
    requires c.Valid() && Inv(c, s)
    ensures 0 <= Placed(c, s, f) && 0 <= InHand(s, f) && Placed(c, s, f) + InHand(s, f) <= c.Quota()
  {
    SupplyBound(c, s, f);
    assert KindInv(c, s, f);
    TotalAtLeast(Carrying(f), s.cooks, 0);
    TotalAtLeast(Delivered(c.Quota(), f), s.cooks, 0);
  }

  /** The effect of replacing cook i on every total about kind f. */
  lemma CookMovesKind(q: int, cooks: seq<Cook>, i: nat, x: Cook, f: Kind)
    requires i < |cooks|
    ensures Total(Delivered(q, f), cooks[i := x])
         == Total(Delivered(q, f), cooks) - Delivered(q, f)(cooks[i]) + Delivered(q, f)(x)
    ensures Total(Holding(f), cooks[i := x])
         == Total(Holding(f), cooks) - Holding(f)(cooks[i]) + Holding(f)(x)
    ensures Total(Carrying(f), cooks[i := x])
         == Total(Carrying(f), cooks) - Carrying(f)(cooks[i]) + Carrying(f)(x)
    ensures Total(Putting(f), cooks[i := x])
         == Total(Putting(f), cooks) - Putting(f)(cooks[i]) + Putting(f)(x)
    ensures Total(Declaring(f), cooks[i := x])
         == Total(Declaring(f), cooks) - Declaring(f)(cooks[i]) + Declaring(f)(x)
    ensures Total(Released(f), cooks[i := x])
         == Total(Released(f), cooks) - Released(f)(cooks[i]) + Released(f)(x)
    ensures Total(Working(f), cooks[i := x])
         == Total(Working(f), cooks) - Working(f)(cooks[i]) + Working(f)(x)
  {
    TotalUpdate(Delivered(q, f), cooks, i, x);
    TotalUpdate(Holding(f), cooks, i, x);
    TotalUpdate(Carrying(f), cooks, i, x);
    TotalUpdate(Putting(f), cooks, i, x);
    TotalUpdate(Declaring(f), cooks, i, x);
    TotalUpdate(Released(f), cooks, i, x);
    TotalUpdate(Working(f), cooks, i, x);
  }

  /** What the cooks have taken from the kitchen is what they have placed and what they still carry. */
  lemma {:induction false} FetchedSplits(q: int, cooks: seq<Cook>)
    requires forall i :: 0 <= i < |cooks| ==> |cooks[i].left| == FOOD_KIND
    ensures Total(Fetched(q), cooks)
         == Total(Delivered(q, 0), cooks) + Total(Delivered(q, 1), cooks) + Total(Delivered(q, 2), cooks)
            + Total(Carrying(0), cooks) + Total(Carrying(1), cooks) + Total(Carrying(2), cooks)
  {
    if cooks != [] {
      assert |cooks[0].left| == FOOD_KIND;
      FetchedSplits(q, cooks[1..]);
    }
  }

  /** What a cook has been assigned it has placed or works on. */
  lemma {:induction false} AssignmentsSplit(q: int, cooks: seq<Cook>, f: Kind)
    ensures Total(Assignments(q, f), cooks) == Total(Delivered(q, f), cooks) + Total(Working(f), cooks)
  {
    if cooks != [] { AssignmentsSplit(q, cooks[1..], f); }
  }

  /** A busy cook works on exactly one kind. */
  lemma {:induction false} BusySplits(cooks: seq<Cook>)
    ensures Total(Busy(), cooks)
         == Total(Working(0), cooks) + Total(Working(1), cooks) + Total(Working(2), cooks)
  {
    if cooks != [] {
      var job := Job(cooks[0].at);
      assert job == -1 || job == 0 || job == 1 || job == 2;
      BusySplits(cooks[1..]);
    }
  }

  /** The effect of replacing student j on every total. */
  lemma StudentMoves(students: seq<Student>, j: nat, x: Student)
    requires j < |students|
    ensures Total(GraduateOpen(), students[j := x])
      == Total(GraduateOpen(), students) - GraduateOpen()(students[j]) + GraduateOpen()(x)
    ensures Total(GraduateLining(), students[j := x])
      == Total(GraduateLining(), students) - GraduateLining()(students[j]) + GraduateLining()(x)
    ensures Total(UndergraduateHoping(), students[j := x])
      == Total(UndergraduateHoping(), students) - UndergraduateHoping()(students[j]) + UndergraduateHoping()(x)
    ensures Total(AtCounter(), students[j := x])
      == Total(AtCounter(), students) - AtCounter()(students[j]) + AtCounter()(x)
    ensures Total(Meals(), students[j := x]) == Total(Meals(), students) - Meals()(students[j]) + Meals()(x)
    ensures Total(AtTable(), students[j := x])
      == Total(AtTable(), students) - AtTable()(students[j]) + AtTable()(x)
  {
    TotalUpdate(GraduateOpen(), students, j, x);
    TotalUpdate(GraduateLining(), students, j, x);
    TotalUpdate(UndergraduateHoping(), students, j, x);
    TotalUpdate(AtCounter(), students, j, x);
    TotalUpdate(Meals(), students, j, x);
    TotalUpdate(AtTable(), students, j, x);
  }

  // ---------------------------------------------------------------- the initial state

  lemma {:induction false} FreshCooks(q: nat, cooks: seq<Cook>, f: Kind)
    requires forall i :: 0 <= i < |cooks| ==> cooks[i] == Cook(Looping, [q, q, q])
    ensures Total(Freeing(), cooks) == Total(Gone(), cooks) == Total(Fetched(q), cooks) == 0
    ensures Total(Assignments(q, f), cooks) == 0 && Total(Active(), cooks) == |cooks|
  {
    hide Total;
    TotalAtMost(Assignments(q, f), cooks, 0);
    TotalAtMost(Fetched(q), cooks, 0);
    TotalAtMost(Freeing(), cooks, 0);
    TotalAtMost(Gone(), cooks, 0);
    TotalAtMost(Active(), cooks, 1);
  }

  lemma {:induction false} FreshCooksKind(q: nat, cooks: seq<Cook>, f: Kind)
    requires forall i :: 0 <= i < |cooks| ==> cooks[i] == Cook(Looping, [q, q, q])
    ensures Total(Delivered(q, f), cooks) == Total(Holding(f), cooks) == Total(Carrying(f), cooks) == 0
    ensures Total(Putting(f), cooks) == Total(Declaring(f), cooks) == Total(Released(f), cooks) == 0
  {
    hide Total;
    TotalAtMost(Delivered(q, f), cooks, 0);
    TotalAtMost(Holding(f), cooks, 0);
    TotalAtMost(Carrying(f), cooks, 0);
    TotalAtMost(Putting(f), cooks, 0);
    TotalAtMost(Declaring(f), cooks, 0);
    TotalAtMost(Released(f), cooks, 0);
  }

  lemma {:induction false} FreshStudents(students: seq<Student>)
    requires forall j :: 0 <= j < |students| ==>
               students[j].round == 0 && (students[j].at.Registering? || students[j].at.StudentHome?)
    ensures Total(GraduateOpen(), students) == Total(GraduateLining(), students) == 0
    ensures Total(UndergraduateHoping(), students) == Total(AtCounter(), students) == 0
    ensures Total(Meals(), students) == Total(AtTable(), students) == 0
  {
    TotalAtMost(GraduateOpen(), students, 0);
    TotalAtMost(GraduateLining(), students, 0);
    TotalAtMost(UndergraduateHoping(), students, 0);
    TotalAtMost(AtCounter(), students, 0);
    TotalAtMost(Meals(), students, 0);
    TotalAtMost(AtTable(), students, 0);
  }

  lemma EmptyRoom(size: nat, room: seq<int>, f: Kind)
    requires room == Vacant(size)
    ensures Plates(room, f) == 0 && Plates(room, EMPTY) == size
  {
    RoomCounts(room);
    assert 0 !in room && 1 !in room && 2 !in room;
  }

  lemma InitKind(c: Config, f: Kind)
    requires c.Valid()
    ensures KindInv(c, Init(c), f) && Assigned(c, Init(c), f) == 0
    ensures Placed(c, Init(c), f) == 0 && InHand(Init(c), f) == 0
  {
    var s := Init(c);
    hide Total;
    FreshCooks(c.Quota(), s.cooks, f);
    FreshCooksKind(c.Quota(), s.cooks, f);
    FreshStudents(s.students);
    EmptyRoom(c.KitchenSize(), s.kitchen, f);
    EmptyRoom(c.S, s.counter, f);
    assert c.supply[..0] == [];
  }

  lemma InitRest(c: Config)
    requires c.Valid()
    ensures var s := Init(c); Shaped(c, s) && RoomsInv(c, s) && CooksInv(c, s) && PermitsInv(c, s)
  {
    FreshStudents(Init(c).students);
  }

  lemma InitInv(c: Config)
    requires c.Valid()
    ensures Inv(c, Init(c))
  {
    InitRest(c);
    forall f: Kind ensures KindInv(c, Init(c), f) { InitKind(c, f); }
    InitKitchen(c);
  }

  lemma InitKitchen(c: Config)
    requires c.Valid()
    ensures var s := Init(c); KitchenInv(c, s) && RotaInv(c, s) && DepartureInv(c, s)
  {
    InitKind(c, 0);
    InitKind(c, 1);
    InitKind(c, 2);
    FreshCooks(c.Quota(), Init(c).cooks, 0);
    EmptyRoom(c.KitchenSize(), Init(c).kitchen, 0);
  }
}
