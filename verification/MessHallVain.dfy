/**
 The mess hall may run for ever: a run in which one cook delivers a whole kind and goes home before the last
 plate has been brought, and another then searches the empty kitchen with the surplus tokens, round after round.
 */
module MessHallVain {
  import opened Rooms
  import opened Tally
  import opened MessHall
  import opened MessHallInvariant
  import opened MessHallSteps
  import opened MessHallTheorems
  import opened MessHallProgress
  import opened MessHallCompletion

  // ---------------------------------------------------------------- searching in vain for ever

  /**
   Cook i searches in vain; the kitchen is empty although plates are still to come, the surplus tokens of a cook
   that has gone home are free for the other two kinds, and cook i has plates of every kind left to deliver.
   */
  ghost predicate AllVain(c: Config, s: State, i: nat, f: Kind) {
    && Inv(c, s) && i < |s.cooks| && s.cooks[i].at == Searching(f) && s.plates > 0
    && (forall k: Kind :: k !in s.kitchen && s.cooks[i].left[k] != 0 && (k != f ==> s.kFull[k] > 0))
  }

  /** The state after cook i has given up on f and searches for the next kind. */
  function Turned(s: State, i: nat, f: Kind): State
    requires i < |s.cooks| && |s.kFull| == FOOD_KIND
  {
    var f' := NextKind(s.rota);
    var given := s.kFull[f := s.kFull[f] + 1];
    s.(cooks := s.cooks[i := Cook(Searching(f'), s.cooks[i].left)], rota := f' + 1,
       kFull := given[f' := given[f'] - 1])
  }

  lemma TurnsOver(c: Config, o: State, s: State, i: nat, f: Kind)
    requires c.Valid() && Leads(c, o, s) && Inv(c, s) && i < |s.cooks| && s.cooks[i].at == Searching(f)
    requires Shaped(c, s) && s.plates > 0 && f !in s.kitchen
    requires var f' := NextKind(s.rota); s.cooks[i].left[f'] != 0 && s.kFull[f := s.kFull[f] + 1][f'] > 0
    ensures Leads(c, o, Turned(s, i, f)) && Inv(c, Turned(s, i, f))
  {
    hide Inv, Rank, Leads, Config.Valid;
    var f' := NextKind(s.rota);
    var t := GivesUp(c, o, s, i, f);
    t := PicksNext(c, o, t, i, f');
    t := TakesToken(c, o, t, i, f');
    assert t.cooks == s.cooks[i := Cook(Searching(f'), s.cooks[i].left)];
    assert t == Turned(s, i, f);
  }

  /** Cook i gives up and searches, again in vain, for the next kind. */
  lemma VainTurn(c: Config, o: State, s: State, i: nat, f: Kind)
    requires c.Valid() && Leads(c, o, s) && AllVain(c, s, i, f)
    ensures |s.kFull| == FOOD_KIND && i < |s.cooks| && Leads(c, o, Turned(s, i, f))
    ensures AllVain(c, Turned(s, i, f), i, NextKind(s.rota))
    ensures NextKind(s.rota) != f ==> Turned(s, i, f) != s
  {
    KeepsTokens(c, s, f);
    hide Inv, Leads, Config.Valid;
    TurnsOver(c, o, s, i, f);
  }

  lemma KeepsTokens(c: Config, s: State, f: Kind)
    requires Inv(c, s)
    ensures Shaped(c, s) && |s.kFull| == FOOD_KIND && s.kFull[f] >= 0
  {
    hide Total, KitchenInv, PermitsInv, RotaInv, DepartureInv, CooksInv, RoomsInv, Config.Valid, Config.Quota;
    assert KindInv(c, s, f);
  }

  function Following(f: Kind): Kind { if f + 1 == FOOD_KIND then 0 else f + 1 }

  lemma ThreeTurns(s: State, i: nat, f: Kind)
    requires i < |s.cooks| && |s.kFull| == FOOD_KIND && s.cooks[i].at == Searching(f) && s.rota == f + 1
    ensures Turned(Turned(Turned(s, i, f), i, Following(f)), i, Following(Following(f))) == s
    ensures NextKind(s.rota) == Following(f) && NextKind(Turned(s, i, f).rota) == Following(Following(f))
  {
    var t := Turned(Turned(Turned(s, i, f), i, Following(f)), i, Following(Following(f)));
    assert t.cooks == s.cooks && t.kFull == s.kFull;
  }

  /** Three turns in vain lead back to the very same state. */
  lemma RoundInVain(c: Config, s: State, i: nat, f: Kind) returns (t: State)
    requires c.Valid() && AllVain(c, s, i, f) && s.rota == f + 1
    ensures t != s && Leads(c, s, t) && Leads(c, t, s)
  {
    LeadsNowhere(c, s);
    VainTurn(c, s, s, i, f);
    ThreeTurns(s, i, f);
    hide Inv, Leads, AllVain, Turned, NextKind, Config.Valid;
    t := Turned(s, i, f);
    LeadsNowhere(c, t);
    VainTurn(c, t, t, i, Following(f));
    VainTurn(c, t, Turned(t, i, Following(f)), i, Following(Following(f)));
  }

  /** So the cook can search in vain any number of times. */
  lemma {:induction false} VainForever(c: Config, s: State, i: nat, f: Kind, n: nat) returns (states: seq<State>)
    requires c.Valid() && AllVain(c, s, i, f) && s.rota == f + 1
    ensures Path(c, states) && states[0] == states[|states| - 1] == s && |states| > n
  {
    hide Inv, AllVain, Follows, Config.Valid;
    if n == 0 {
      states := [s];
    } else {
      var before := VainForever(c, s, i, f, n - 1);
      var t := RoundInVain(c, s, i, f);
      LeadsOn(c, s, t, s);
      var there :| Path(c, there) && there[0] == s && there[|there| - 1] == t;
      var back :| Path(c, back) && back[0] == t && back[|back| - 1] == s;
      states := Joined(c, before, Joined(c, there, back));
      assert |Joined(c, there, back)| >= |there| >= 2;
    }
  }

  // ---------------------------------------------------------------- three cooks at work

  /** The state occurs in some run. */
  ghost predicate Here(c: Config, s: State) { Inv(c, s) && Leads(c, Init(c), s) }

  lemma Takes(c: Config, s: State, p: Process) returns (t: State)
    requires c.Valid() && Here(c, s) && Enabled(c, s, p)
    ensures t == Exec(c, s, p) && Here(c, t) && !t.failed
  {
    hide Exec, Enabled, Leads, Config.Valid;
    t := Goes(c, Init(c), s, p);
  }

  /** A cook at the top of its loop, with these plates left to deliver. */
  function Idler(a: int, b: int, d: int): Cook { Cook(Looping, [a, b, d]) }

  /** All cooks as at the start but for the first three. */
  function Staff(c: Config, w: seq<Cook>): (cooks: seq<Cook>)
    requires c.N >= 3 && |w| == 3
    ensures |cooks| == c.N && forall i :: 0 <= i < 3 ==> cooks[i] == w[i]
    ensures forall i :: 3 <= i < c.N ==> cooks[i] == Idler(c.Quota(), c.Quota(), c.Quota())
  {
    w + Init(c).cooks[3..]
  }

  lemma {:induction false} TotalFront(weight: Cook -> int, k: Cook, rest: seq<Cook>)
    ensures Total(weight, [k] + rest) == weight(k) + Total(weight, rest)
  {
    assert ([k] + rest)[1..] == rest;
  }

  lemma StaffTotal(c: Config, weight: Cook -> int, w: seq<Cook>)
    requires c.N >= 3 && |w| == 3 && weight(Idler(c.Quota(), c.Quota(), c.Quota())) == 0
    ensures Total(weight, Staff(c, w)) == weight(w[0]) + weight(w[1]) + weight(w[2])
  {
    hide Total, Config.Quota;
    var rest := Init(c).cooks[3..];
    assert Staff(c, w) == [w[0]] + ([w[1]] + ([w[2]] + rest));
    TotalFront(weight, w[0], [w[1]] + ([w[2]] + rest));
    TotalFront(weight, w[1], [w[2]] + rest);
    TotalFront(weight, w[2], rest);
    TotalAtMost(weight, rest, 0);
  }

  /** At the top of its loop or waiting for a plate: without a token and without a plate. */
  predicate Calm(k: Cook) { (k.at.Looping? || k.at.Waiting? || k.at.CookHome?) && |k.left| == FOOD_KIND }

  predicate AllCalm(w: seq<Cook>) { |w| == 3 && Calm(w[0]) && Calm(w[1]) && Calm(w[2]) }

  /** How many plates of kind f three cooks have delivered. */
  function Done(q: int, w: seq<Cook>, f: Kind): int
    requires AllCalm(w)
  {
    3 * q - w[0].left[f] - w[1].left[f] - w[2].left[f]
  }

  /** How many of them have gone home. */
  function Home(w: seq<Cook>): int
    requires |w| == 3
  {
    Bit(w[0].at.CookHome?) + Bit(w[1].at.CookHome?) + Bit(w[2].at.CookHome?)
  }

  /** The supplier waits and the cooks are calm. */
  ghost predicate Quiet(c: Config, s: State, w: seq<Cook>) {
    c.Valid() && Here(c, s) && s.supplier.AwaitingSlot? && AllCalm(w) && s.cooks == Staff(c, w)
  }

  /** Tokens and plates of a kind when the cooks are calm. */
  lemma QuietKind(c: Config, s: State, w: seq<Cook>, f: Kind)
    requires Quiet(c, s, w)
    ensures Shaped(c, s) && Placed(c, s, f) == Done(c.Quota(), w, f)
    ensures Plates(s.kitchen, f) + Placed(c, s, f) == Supplied(c, s, f)
    ensures s.kFull[f] == Plates(s.kitchen, f) + Home(w)
    ensures s.cEmpty[f] + Plates(s.counter, f) == c.Share(f)
    ensures s.cFull[f] + Gathered(s, f) == Placed(c, s, f) == Plates(s.counter, f) + Total(Meals(), s.students)
  {
    hide Total, Leads, KitchenInv, PermitsInv, RotaInv, DepartureInv, CooksInv, RoomsInv, Config.Quota, Config.Share;
    assert KindInv(c, s, f);
    StaffTotal(c, Delivered(c.Quota(), f), w);
    StaffTotal(c, Carrying(f), w);
    StaffTotal(c, Holding(f), w);
    StaffTotal(c, Released(f), w);
    StaffTotal(c, Putting(f), w);
    StaffTotal(c, Declaring(f), w);
  }

  /** The rest of the kitchen when the cooks are calm. */
  lemma QuietKitchen(c: Config, s: State, w: seq<Cook>)
    requires Quiet(c, s, w)
    ensures Shaped(c, s) && s.kEmpty == Plates(s.kitchen, EMPTY)
    ensures var q := c.Quota();
      s.plates == 3 * q - Done(q, w, 0) - Done(q, w, 1) - Done(q, w, 2)
  {
    hide Total, Leads, KindInv, PermitsInv, RotaInv, DepartureInv, CooksInv, RoomsInv, Config.Quota;
    StaffTotal(c, Freeing(), w);
    StaffTotal(c, Fetched(c.Quota()), w);
  }

  // ---------------------------------------------------------------- the supplier

  /** Plates of kind f among all but the last one of the supply. */
  function Early(c: Config, f: Kind): nat
    requires |c.supply| > 0
  {
    multiset(c.supply[..|c.supply| - 1])[f]
  }

  lemma EarlyCount(c: Config, f: Kind)
    requires c.Valid() && |c.supply| > 0
    ensures Early(c, f) == c.Quota() - Bit(f == c.supply[|c.supply| - 1])
  {
    var early, last := c.supply[..|c.supply| - 1], c.supply[|c.supply| - 1];
    assert c.supply == early + [last];
    assert multiset(c.supply) == multiset(early) + multiset{last};
    assert multiset(c.supply)[f] == c.Quota();
  }

  /** The supplier delivers a plate, not the last one. */
  lemma DeliversOne(c: Config, s: State) returns (t: State)
    requires c.Valid() && Here(c, s) && Shaped(c, s) && s.supplier.AwaitingSlot? && s.kEmpty > 0
    requires s.sent + 1 < |c.supply|
    ensures Here(c, t) && t.supplier.AwaitingSlot? && |t.kFull| == |s.kFull|
    ensures t == s.(sent := s.sent + 1, kEmpty := t.kEmpty, kitchen := t.kitchen, kFull := t.kFull)
  {
    hide Next, Here, Config.Valid;
    NotFailed(c, s);
    t := Takes(c, s, Supplier);
    t := Takes(c, t, Supplier);
    t := Takes(c, t, Supplier);
  }

  lemma NotFailed(c: Config, s: State)
    requires Here(c, s)
    ensures !s.failed && Shaped(c, s)
  {
  }

  /** The supplier can bring a plate of any kind of which not all early plates are on the counter or eaten. */
  lemma {:induction false} SuppliesKind(c: Config, s: State, w: seq<Cook>, f: Kind) returns (t: State)
    requires Quiet(c, s, w) && |c.supply| > 0 && Done(c.Quota(), w, f) < Early(c, f)
    ensures Quiet(c, t, w) && f in t.kitchen
    ensures t == s.(sent := t.sent, kEmpty := t.kEmpty, kitchen := t.kitchen, kFull := t.kFull)
    decreases |c.supply| - s.sent
  {
    QuietKind(c, s, w, f);
    hide Inv, Leads, Config.Quota, Done;
    if f in s.kitchen {
      t := s;
    } else {
      NotAllSent(c, s, f);
      FreeSlot(c, s, w, f);
      t := DeliversOne(c, s);
      t := SuppliesKind(c, t, w, f);
    }
  }

  lemma NotAllSent(c: Config, s: State, f: Kind)
    requires Shaped(c, s) && s.supplier.AwaitingSlot? && |c.supply| > 0 && Supplied(c, s, f) < Early(c, f)
    ensures s.sent + 1 < |c.supply|
  {
  }

  /** A kitchen without plates of one kind has a free slot: the others can fill no more than 2LM of the 2LM + 1. */
  lemma FreeSlot(c: Config, s: State, w: seq<Cook>, f: Kind)
    requires Quiet(c, s, w) && f !in s.kitchen
    ensures s.kEmpty > 0
  {
    var second: Kind, third: Kind := 1, 2;
    assert f == 0 || f == second || f == third;
    hide *;
    QuietKitchen(c, s, w);
    KindFits(c, s, w, 0);
    KindFits(c, s, w, second);
    KindFits(c, s, w, third);
    RoomCounts(s.kitchen);
    NoneThere(s.kitchen, f);
  }

  lemma NoneThere(room: seq<int>, f: Kind)
    requires f !in room
    ensures Plates(room, f) == 0
  {
  }

  lemma KindFits(c: Config, s: State, w: seq<Cook>, g: Kind)
    requires Quiet(c, s, w)
    ensures Plates(s.kitchen, g) <= c.Quota() && Holds(s.kitchen) && |s.kitchen| == 2 * c.Quota() + 1
  {
    QuietKind(c, s, w, g);
    ShapedKitchen(c, s);
    hide Inv, Leads, Config.Quota, Staff, Supplied, Placed, Done;
    SupplyBound(c, s, g);
    PlacedBound(c, s, g);
  }

  lemma ShapedKitchen(c: Config, s: State)
    requires Inv(c, s)
    ensures Shaped(c, s) && Holds(s.kitchen) && |s.kitchen| == 2 * c.Quota() + 1
  {
    hide Total, KindInv, KitchenInv, PermitsInv, RotaInv, DepartureInv, CooksInv;
    assert c.KitchenSize() == 2 * c.Quota() + 1;
  }

  // ---------------------------------------------------------------- the cooks

  /** Cook i takes a plate of the kind on the rota from the kitchen. */
  lemma FetchesOne(c: Config, s: State, i: nat, f: Kind) returns (t: State)
    requires c.Valid() && Here(c, s) && Shaped(c, s) && i < |s.cooks| && s.cooks[i].at.Looping?
    requires f == NextKind(s.rota) && s.plates > 0 && s.cooks[i].left[f] != 0 && f in s.kitchen && s.kFull[f] > 0
    ensures Here(c, t)
    ensures t == s.(cooks := s.cooks[i := Cook(Leaving(f), s.cooks[i].left)], rota := f + 1, plates := s.plates - 1,
                    kitchen := t.kitchen, kFull := t.kFull)
  {
    hide Next, Here, Config.Valid, Config.Quota, Config.KitchenSize;
    NotFailed(c, s);
    t := Takes(c, s, CookNo(i));
    t := Takes(c, t, CookNo(i));
    t := Takes(c, t, CookNo(i));
    t := Takes(c, t, CookNo(i));
    assert t.cooks == s.cooks[i := Cook(Leaving(f), s.cooks[i].left)];
  }

  /** And carries it to the counter. */
  lemma CarriesOne(c: Config, s: State, i: nat, f: Kind) returns (t: State)
    requires c.Valid() && Here(c, s) && Shaped(c, s) && i < |s.cooks| && s.cooks[i].at.Looping?
    requires f == NextKind(s.rota) && s.plates > 0 && s.cooks[i].left[f] != 0 && f in s.kitchen && s.kFull[f] > 0
    requires s.cEmpty[f] > 0
    ensures Here(c, t)
    ensures t == s.(cooks := s.cooks[i := Cook(Looping, s.cooks[i].left[f := s.cooks[i].left[f] - 1])],
                    rota := f + 1, plates := s.plates - 1, kEmpty := t.kEmpty, kitchen := t.kitchen, kFull := t.kFull,
                    cEmpty := t.cEmpty, cFull := t.cFull, counter := t.counter)
  {
    hide Next, Here, Config.Valid, Config.Quota, Config.KitchenSize;
    t := FetchesOne(c, s, i, f);
    NotFailed(c, t);
    t := PutsDown(c, t, i, f);
    assert t.cooks == s.cooks[i := Cook(Looping, s.cooks[i].left[f := s.cooks[i].left[f] - 1])];
  }

  lemma PutsDown(c: Config, s: State, i: nat, f: Kind) returns (t: State)
    requires c.Valid() && Here(c, s) && Shaped(c, s) && i < |s.cooks| && s.cooks[i].at == Leaving(f)
    requires s.cEmpty[f] > 0
    ensures Here(c, t)
    ensures t == s.(cooks := s.cooks[i := Cook(Looping, s.cooks[i].left[f := s.cooks[i].left[f] - 1])],
                    kEmpty := s.kEmpty + 1, cEmpty := t.cEmpty, cFull := t.cFull, counter := t.counter)
  {
    hide Next, Here, Config.Valid, Config.Quota, Config.KitchenSize;
    NotFailed(c, s);
    t := Takes(c, s, CookNo(i));
    t := Takes(c, t, CookNo(i));
    t := Takes(c, t, CookNo(i));
    t := Takes(c, t, CookNo(i));
    assert t.cooks == s.cooks[i := Cook(Looping, s.cooks[i].left[f := s.cooks[i].left[f] - 1])];
  }

  /** While not everything of kind f has been delivered there are plates to fetch. */
  lemma PlatesLeft(c: Config, s: State, w: seq<Cook>, f: Kind)
    requires Quiet(c, s, w) && Done(c.Quota(), w, f) < c.Quota()
    ensures s.plates > 0
  {
    var second: Kind, third: Kind := 1, 2;
    assert f == 0 || f == second || f == third;
    hide *;
    QuietKitchen(c, s, w);
    DoneAtMost(c, s, w, 0);
    DoneAtMost(c, s, w, second);
    DoneAtMost(c, s, w, third);
  }

  lemma DoneAtMost(c: Config, s: State, w: seq<Cook>, f: Kind)
    requires Quiet(c, s, w)
    ensures Done(c.Quota(), w, f) <= c.Quota()
  {
    QuietKind(c, s, w, f);
    hide Inv, Leads, Config.Quota, Staff, Supplied, Placed, Done, Total;
    PlacedBound(c, s, f);
  }

  /** A share of the counter without plates is free. */
  lemma ShareFree(c: Config, s: State, w: seq<Cook>, f: Kind)
    requires Quiet(c, s, w) && Done(c.Quota(), w, f) == Total(Meals(), s.students)
    ensures Shaped(c, s) && s.cEmpty[f] > 0
  {
    QuietKind(c, s, w, f);
    hide Here, Done, Total, Staff, Config.Quota;
    assert c.Share(f) > 0;
  }

  /** With a plate of the next kind brought by the supplier, cook i carries it to the empty counter. */
  lemma Brings(c: Config, s: State, w: seq<Cook>, i: nat, f: Kind) returns (t: State)
    requires Quiet(c, s, w) && i < 3 && w[i].at.Looping? && f == NextKind(s.rota)
    requires |c.supply| > 0 && w[i].left[f] != 0 && Done(c.Quota(), w, f) < Early(c, f)
    requires Done(c.Quota(), w, f) == Total(Meals(), s.students)
    ensures Quiet(c, t, w[i := Cook(Looping, w[i].left[f := w[i].left[f] - 1])])
    ensures t == s.(cooks := t.cooks, rota := f + 1, plates := s.plates - 1, sent := t.sent,
                    kEmpty := t.kEmpty, kitchen := t.kitchen, kFull := t.kFull,
                    cEmpty := t.cEmpty, cFull := t.cFull, counter := t.counter)
  {
    EarlyCount(c, f);
    t := SuppliesKind(c, s, w, f);
    PlatesLeft(c, t, w, f);
    ShareFree(c, t, w, f);
    QuietKind(c, t, w, f);
    hide Here, Total, Done, Shaped, Config.Quota, Home, Early;
    assert f in multiset(t.kitchen);
    assert Home(w) >= 0 by { HomeNonNegative(w); }
    t := CarriesOne(c, t, i, f);
    StaffMoves(c, w, i, Cook(Looping, w[i].left[f := w[i].left[f] - 1]));
  }

  /** One of the three changes. */
  lemma StaffMoves(c: Config, w: seq<Cook>, i: nat, k: Cook)
    requires c.N >= 3 && AllCalm(w) && i < 3 && Calm(k)
    ensures AllCalm(w[i := k]) && Staff(c, w[i := k]) == Staff(c, w)[i := k]
  {
    hide Config.Quota;
  }

  lemma HomeNonNegative(w: seq<Cook>)
    requires |w| == 3
    ensures Home(w) >= 0
  {
  }

  // ---------------------------------------------------------------- the supervisor and the students

  /** Between two meals, or home. */
  predicate Settled(students: seq<Student>) {
    forall j :: 0 <= j < |students| ==> students[j].at.Registering? || students[j].at.StudentHome?
  }

  /** Nobody is on the way to a meal, and n meals have been served. */
  predicate Between(c: Config, s: State, n: nat) {
    && s.served == n && s.supervisor == (if n < c.Quota() then Gathering(0) else SupervisorHome)
    && s.sEmpty == 0 && s.graduates == 0 && s.sFull == [0, 0] && Settled(s.students)
  }

  /** Then all meals served have been eaten, and all tables are free. */
  lemma BetweenMeals(c: Config, s: State, n: nat)
    requires c.Valid() && Inv(c, s) && Between(c, s, n)
    ensures Total(Meals(), s.students) == n && s.tEmpty == c.T
  {
    hide Total, KindInv, KitchenInv, CooksInv, RotaInv, DepartureInv, RoomsInv, Config.Quota, Config.Valid;
    TotalAtMost(AtCounter(), s.students, 0);
    TotalAtMost(AtTable(), s.students, 0);
  }

  /** While meals are to be served some student has not had all of its own. */
  lemma SomebodyHungry(c: Config, s: State, n: nat) returns (j: nat)
    requires c.Valid() && Inv(c, s) && Between(c, s, n) && n < c.Quota()
    ensures j < |s.students| && s.students[j].at.Registering?
  {
    BetweenMeals(c, s, n);
    hide Inv, Total, Config.Quota, Config.Valid;
    if forall k :: 0 <= k < |s.students| ==> s.students[k].at.StudentHome? {
      HomeMeals(c, s);
      assert false;
    } else {
      j :| 0 <= j < |s.students| && !s.students[j].at.StudentHome?;
    }
  }

  /** Student j registers and lines up. */
  lemma LinesUp(c: Config, s: State, j: nat) returns (t: State)
    requires c.Valid() && Here(c, s) && Shaped(c, s) && j < |s.students| && s.students[j].at.Registering?
    ensures Here(c, t)
    ensures t == s.(students := s.students[j := s.students[j].(at := Hoping)], sEmpty := s.sEmpty + 1,
                    graduates := s.graduates + Class(s.students[j].graduate))
  {
    hide Here, Config.Valid, Config.Quota, Config.KitchenSize;
    NotFailed(c, s);
    t := Takes(c, s, StudentNo(j));
    t := Takes(c, t, StudentNo(j));
    assert t.students == s.students[j := s.students[j].(at := Hoping)];
  }

  /** And the supervisor admits it. */
  lemma Admits(c: Config, s: State, n: nat, j: nat) returns (t: State)
    requires c.Valid() && Here(c, s) && Shaped(c, s) && Between(c, s, n) && n < c.Quota()
    requires j < |s.students| && s.students[j].at.Registering?
    requires s.cFull[0] > 0 && s.cFull[1] > 0 && s.cFull[2] > 0
    ensures Here(c, t)
    ensures var g := Class(s.students[j].graduate);
      t == s.(students := s.students[j := s.students[j].(at := Hoping)], served := n + 1, sFull := [0, 0][g := 1],
              cFull := t.cFull, supervisor := if n + 1 < c.Quota() then Gathering(0) else SupervisorHome)
  {
    hide Here, Settled, Config.Valid, Config.Quota, Config.KitchenSize;
    t := LinesUp(c, s, j);
    NotFailed(c, t);
    t := Takes(c, t, Supervisor);
    t := Takes(c, t, Supervisor);
    t := Takes(c, t, Supervisor);
    t := Takes(c, t, Supervisor);
    t := Takes(c, t, Supervisor);
    t := Takes(c, t, Supervisor);
    assert t.sFull == [0, 0][Class(s.students[j].graduate) := 1];
  }

  /** An admitted student takes its food. */
  lemma Collects(c: Config, s: State, j: nat) returns (t: State)
    requires c.Valid() && Here(c, s) && Shaped(c, s) && j < |s.students| && s.students[j].at.Hoping?
    requires s.sFull == [0, 0][Class(s.students[j].graduate) := 1]
    ensures Here(c, t)
    ensures t == s.(students := s.students[j := s.students[j].(at := Seating)], sFull := [0, 0],
                    counter := t.counter, cEmpty := t.cEmpty)
  {
    hide Here, Next, TakeThree, Config.Valid, Config.Quota, Config.KitchenSize;
    NotFailed(c, s);
    t := Takes(c, s, StudentNo(j));
    t := Takes(c, t, StudentNo(j));
    assert t.students == s.students[j := s.students[j].(at := Seating)] && t.sFull == [0, 0];
  }

  /** And eats it. */
  lemma Eats(c: Config, s: State, j: nat) returns (t: State)
    requires c.Valid() && Here(c, s) && Shaped(c, s) && j < |s.students| && s.students[j].at.Seating? && s.tEmpty > 0
    ensures Here(c, t) && |t.students| == |s.students|
    ensures t.students[j].at.Registering? || t.students[j].at.StudentHome?
    ensures t == s.(students := s.students[j := t.students[j]], tables := t.tables, tEmpty := t.tEmpty)
  {
    hide Here, Next, TakeThree, Config.Valid, Config.Quota, Config.KitchenSize;
    NotFailed(c, s);
    t := Takes(c, s, StudentNo(j));
    t := Takes(c, t, StudentNo(j));
    t := Takes(c, t, StudentNo(j));
    assert t.students == s.students[j := t.students[j]];
  }

  /** An admitted student has its meal. */
  lemma Dines(c: Config, s: State, j: nat) returns (t: State)
    requires c.Valid() && Here(c, s) && Shaped(c, s) && j < |s.students| && s.students[j].at.Hoping? && s.tEmpty > 0
    requires s.sFull == [0, 0][Class(s.students[j].graduate) := 1]
    ensures Here(c, t) && |t.students| == |s.students|
    ensures t.students[j].at.Registering? || t.students[j].at.StudentHome?
    ensures t == s.(students := s.students[j := t.students[j]], sFull := [0, 0], counter := t.counter,
                    cEmpty := t.cEmpty, tables := t.tables, tEmpty := t.tEmpty)
  {
    hide Here, Config.Valid, Config.Quota, Config.KitchenSize;
    t := Collects(c, s, j);
    NotFailed(c, t);
    t := Eats(c, t, j);
    assert t.students == s.students[j := t.students[j]];
  }

  /** Student j has a permit, and otherwise nobody is on the way to a meal. */
  predicate Admitted(c: Config, s: State, n: nat, j: nat) {
    && s.served == n && s.supervisor == (if n < c.Quota() then Gathering(0) else SupervisorHome)
    && s.sEmpty == 0 && s.graduates == 0 && j < |s.students| && s.students[j].at.Hoping? && s.tEmpty > 0
    && s.sFull == [0, 0][Class(s.students[j].graduate) := 1]
    && forall i :: 0 <= i < |s.students| && i != j ==> s.students[i].at.Registering? || s.students[i].at.StudentHome?
  }

  lemma BecomesAdmitted(c: Config, s: State, w: seq<Cook>, n: nat, j: nat) returns (t: State)
    requires Quiet(c, s, w) && Between(c, s, n) && n < c.Quota() && s.tEmpty > 0 && Shaped(c, s)
    requires j < |s.students| && s.students[j].at.Registering?
    requires s.cFull[0] > 0 && s.cFull[1] > 0 && s.cFull[2] > 0
    ensures Quiet(c, t, w) && Admitted(c, t, n + 1, j) && t.rota == s.rota && t.sent == s.sent
  {
    hide Here, Staff, AllCalm, Class, Config.Quota, Config.Valid;
    t := Admits(c, s, n, j);
  }

  lemma HasMeal(c: Config, s: State, w: seq<Cook>, n: nat, j: nat) returns (t: State)
    requires Quiet(c, s, w) && Admitted(c, s, n, j)
    ensures Quiet(c, t, w) && Between(c, t, n) && t.rota == s.rota && t.sent == s.sent
  {
    hide Here, Staff, AllCalm, Class, Config.Quota, Config.Valid;
    NotFailed(c, s);
    t := Dines(c, s, j);
  }

  /** With a plate of each kind on the counter a meal is served and eaten. */
  lemma Serves(c: Config, s: State, w: seq<Cook>, n: nat) returns (t: State)
    requires Quiet(c, s, w) && Between(c, s, n) && n < c.Quota()
    requires forall f: Kind :: Done(c.Quota(), w, f) == n + 1
    ensures Quiet(c, t, w) && Between(c, t, n + 1) && t.rota == s.rota && t.sent == s.sent
  {
    BetweenMeals(c, s, n);
    var j := SomebodyHungry(c, s, n);
    PlateOfEach(c, s, w, n, 0);
    PlateOfEach(c, s, w, n, 1);
    PlateOfEach(c, s, w, n, 2);
    hide Quiet, Between, Admitted, Total, Done, Shaped, Config.Quota;
    t := BecomesAdmitted(c, s, w, n, j);
    t := HasMeal(c, t, w, n + 1, j);
  }

  lemma PlateOfEach(c: Config, s: State, w: seq<Cook>, n: nat, f: Kind)
    requires Quiet(c, s, w) && Between(c, s, n) && n < c.Quota()
    requires Done(c.Quota(), w, f) == n + 1
    ensures Shaped(c, s) && s.cFull[f] > 0
  {
    QuietKind(c, s, w, f);
    hide Here, Total, Done, Staff, Config.Quota;
  }

  // ---------------------------------------------------------------- round after round

  /** The first three cooks when each has delivered n plates of its kind, and those before k one more. */
  function Crew(c: Config, n: int, k: nat): (w: seq<Cook>)
    ensures |w| == 3
  {
    var q := c.Quota();
    [Idler(q - n - Bit(k > 0), q, q), Idler(q, q - n - Bit(k > 1), q), Idler(q, q, q - n - Bit(k > 2))]
  }

  /** n meals have been eaten, and since then the first k cooks have brought one more plate of their kinds. */
  ghost predicate MidRound(c: Config, s: State, n: nat, k: nat) {
    && n < c.Quota() && k <= FOOD_KIND && NextKind(s.rota) == (if k < FOOD_KIND then k else 0)
    && Between(c, s, n) && Quiet(c, s, Crew(c, n, k))
  }

  lemma StartsRounds(c: Config)
    requires c.Valid() && c.Quota() > 0
    ensures MidRound(c, Init(c), 0, 0)
  {
    InitInv(c);
    LeadsNowhere(c, Init(c));
    hide Inv, Leads, Config.Quota;
    assert Init(c).cooks == Staff(c, Crew(c, 0, 0));
  }

  /** What each cook needs for its next plate. */
  lemma CanBring(c: Config, s: State, n: nat, k: nat)
    requires MidRound(c, s, n, k) && k < FOOD_KIND && n < Early(c, k)
    ensures s.cooks[k].at.Looping? && s.cooks[k].left[k] == c.Quota() - n
    ensures Done(c.Quota(), Crew(c, n, k), k) == n == Total(Meals(), s.students)
  {
    BetweenMeals(c, s, n);
    hide Inv, Leads, Total, Early, Config.Quota;
  }

  /** Cook k puts a plate of its kind down. */
  lemma CrewMoves(c: Config, n: int, k: nat)
    requires k < FOOD_KIND
    ensures AllCalm(Crew(c, n, k)) && AllCalm(Crew(c, n, k + 1))
    ensures var cook := Crew(c, n, k)[k];
      Crew(c, n, k + 1) == Crew(c, n, k)[k := Cook(Looping, cook.left[k := cook.left[k] - 1])]
  {
    hide Config.Quota;
    var cook := Crew(c, n, k)[k];
    assert cook.left[k := cook.left[k] - 1] == Crew(c, n, k + 1)[k].left;
  }

  lemma BringsNext(c: Config, s: State, n: nat, k: nat) returns (t: State)
    requires MidRound(c, s, n, k) && k < FOOD_KIND && n < Early(c, k)
    ensures MidRound(c, t, n, k + 1)
  {
    CanBring(c, s, n, k);
    CrewMoves(c, n, k);
    hide Here, Total, Early, Done, Quiet, Crew, Calm, Settled, Config.Quota, Config.Valid;
    t := Brings(c, s, Crew(c, n, k), k, k);
  }

  lemma EatsUp(c: Config, s: State, n: nat) returns (t: State)
    requires MidRound(c, s, n, FOOD_KIND) && n + 1 < c.Quota()
    ensures MidRound(c, t, n + 1, 0)
  {
    AllBrought(c, n);
    hide Here, Total, Done, Between, Quiet, Crew, Config.Quota;
    t := Serves(c, s, Crew(c, n, FOOD_KIND), n);
  }

  lemma AllBrought(c: Config, n: nat)
    ensures Crew(c, n, FOOD_KIND) == Crew(c, n + 1, 0) && AllCalm(Crew(c, n, FOOD_KIND))
    ensures forall f: Kind :: Done(c.Quota(), Crew(c, n, FOOD_KIND), f) == n + 1
  {
    hide Config.Quota;
  }

  lemma {:induction false} Rounds(c: Config, n: nat) returns (s: State)
    requires c.Valid() && n < c.Quota()
    ensures MidRound(c, s, n, 0)
  {
    hide MidRound, Early, Config.Quota;
    if n == 0 {
      StartsRounds(c);
      s := Init(c);
    } else {
      s := Rounds(c, n - 1);
      EarlyCount(c, 0);
      EarlyCount(c, 1);
      EarlyCount(c, 2);
      s := BringsNext(c, s, n - 1, 0);
      s := BringsNext(c, s, n - 1, 1);
      s := BringsNext(c, s, n - 1, 2);
      s := EatsUp(c, s, n - 1);
    }
  }

  // ---------------------------------------------------------------- the last plate is late

  /** Not everything has been delivered of the kind of the last plate. */
  predicate Missing(c: Config, w: seq<Cook>)
    requires AllCalm(w)
  {
    |c.supply| > 0 && Done(c.Quota(), w, c.supply[|c.supply| - 1]) < c.Quota()
  }

  /** Cook i takes the next kind from the rota and waits for a plate of it. */
  lemma Waits(c: Config, s: State, w: seq<Cook>, i: nat, f: Kind) returns (t: State)
    requires Quiet(c, s, w) && Missing(c, w)
    requires i < 3 && w[i].at.Looping? && f == NextKind(s.rota) && w[i].left[f] != 0
    ensures Quiet(c, t, w[i := Cook(Waiting(f), w[i].left)]) && t == s.(cooks := t.cooks, rota := f + 1)
  {
    PlatesLeft(c, s, w, c.supply[|c.supply| - 1]);
    StaffMoves(c, w, i, Cook(Waiting(f), w[i].left));
    hide Inv, Leads, Total, Done, AllCalm, Config.Quota;
    t := PicksNext(c, Init(c), s, i, f);
  }

  /** Cook i, having delivered all of the kind that the rota shows, goes home, with plates still to come. */
  lemma Departs(c: Config, s: State, w: seq<Cook>, i: nat, f: Kind) returns (t: State)
    requires Quiet(c, s, w) && Missing(c, w)
    requires i < 3 && w[i].at.Looping? && f == NextKind(s.rota) && w[i].left[f] == 0
    ensures Quiet(c, t, w[i := Cook(CookHome, w[i].left)])
    ensures t == s.(cooks := t.cooks, rota := f + 1, kFull := t.kFull)
  {
    PlatesLeft(c, s, w, c.supply[|c.supply| - 1]);
    StaffMoves(c, w, i, Cook(CookHome, w[i].left));
    hide Here, Total, Done, AllCalm, Config.Quota, Config.KitchenSize, Config.Valid;
    NotFailed(c, s);
    t := PostsAll(c, s, i, f);
  }

  lemma PostsAll(c: Config, s: State, i: nat, f: Kind) returns (t: State)
    requires c.Valid() && Here(c, s) && Shaped(c, s) && i < |s.cooks| && s.cooks[i].at.Looping? && s.plates > 0
    requires f == NextKind(s.rota) && s.cooks[i].left[f] == 0
    ensures Here(c, t)
    ensures t == s.(cooks := s.cooks[i := Cook(CookHome, s.cooks[i].left)], rota := f + 1, kFull := t.kFull)
  {
    hide Here, Next, Config.Quota, Config.KitchenSize, Config.Valid;
    NotFailed(c, s);
    t := Takes(c, s, CookNo(i));
    t := Takes(c, t, CookNo(i));
    t := Takes(c, t, CookNo(i));
    t := Takes(c, t, CookNo(i));
    t := Takes(c, t, CookNo(i));
    assert t.cooks == s.cooks[i := Cook(CookHome, s.cooks[i].left)];
  }

  /** Everything but the last plate has been delivered, and cook i waits for that one. */
  ghost predicate LastPlateLate(c: Config, s: State, w: seq<Cook>, i: nat, f: Kind) {
    && Quiet(c, s, w) && Home(w) == 1 && |c.supply| > 0 && c.supply[|c.supply| - 1] == f
    && (forall k: Kind :: Done(c.Quota(), w, k) == c.Quota() - Bit(k == f))
    && i < 3 && w[i].at == Waiting(f) && forall k: Kind :: w[i].left[k] != 0
  }

  /** Before the last plate is sent no more than the early ones have been supplied. */
  lemma SuppliedEarly(c: Config, s: State, k: Kind)
    requires Shaped(c, s) && s.supplier.AwaitingSlot? && |c.supply| > 0
    ensures Supplied(c, s, k) <= Early(c, k)
  {
    var early := c.supply[..|c.supply| - 1];
    assert c.supply[..s.sent] + early[s.sent..] == early;
    assert multiset(early) == multiset(c.supply[..s.sent]) + multiset(early[s.sent..]);
  }

  /** Then the kitchen is empty, one plate is to come, and there is a surplus token of every kind. */
  lemma OnlySurplus(c: Config, s: State, w: seq<Cook>, i: nat, f: Kind, k: Kind)
    requires LastPlateLate(c, s, w, i, f)
    ensures Shaped(c, s) && k !in s.kitchen && s.kFull[k] == 1
  {
    QuietKind(c, s, w, k);
    SuppliedEarly(c, s, k);
    EarlyCount(c, k);
    hide Here, Total, Done, Staff, Supplied, Placed, Early, Config.Quota;
    assert k in multiset(s.kitchen) <==> k in s.kitchen;
  }

  /** Cook i takes the surplus token and is about to search in vain. */
  lemma BeginsInVain(c: Config, s: State, w: seq<Cook>, i: nat, f: Kind) returns (t: State)
    requires LastPlateLate(c, s, w, i, f)
    ensures AllVain(c, t, i, f) && Leads(c, Init(c), t)
  {
    forall k: Kind ensures Shaped(c, s) && k !in s.kitchen && s.kFull[k] == 1 {
      OnlySurplus(c, s, w, i, f, k);
    }
    PlatesLeft(c, s, w, f);
    hide Inv, Leads, Total, Done, Staff, Config.Quota;
    t := TakesToken(c, Init(c), s, i, f);
  }

  /** The last round: n meals have been eaten, and the three cooks are where they are. */
  ghost predicate LastRound(c: Config, s: State, w: seq<Cook>, rota: nat) {
    && c.Quota() > 0 && |c.supply| > 0 && AllCalm(w) && s.rota == rota
    && Quiet(c, s, w) && Between(c, s, c.Quota() - 1)
  }

  lemma LastRoundBegins(c: Config) returns (s: State)
    requires c.Valid() && c.Quota() > 0
    ensures LastRound(c, s, Crew(c, c.Quota() - 1, 0), s.rota) && NextKind(s.rota) == 0
  {
    CrewMoves(c, c.Quota() - 1, 0);
    hide Here, Quiet, Between, Crew, Config.Quota;
    s := Rounds(c, c.Quota() - 1);
  }

  lemma StaysBetween(c: Config, s: State, t: State, n: nat)
    requires Between(c, s, n) && t.served == s.served && t.supervisor == s.supervisor && t.students == s.students
    requires t.sEmpty == s.sEmpty && t.graduates == s.graduates && t.sFull == s.sFull
    ensures Between(c, t, n)
  {
  }

  /** Cook i brings the last plate of its kind, which is not the last one of all. */
  lemma LastBrings(c: Config, s: State, w: seq<Cook>, rota: nat, i: nat) returns (t: State, w': seq<Cook>)
    requires LastRound(c, s, w, rota) && i < FOOD_KIND && NextKind(rota) == i && w[i].at.Looping? && w[i].left[i] == 1
    requires c.supply[|c.supply| - 1] != i && Done(c.Quota(), w, i) == c.Quota() - 1
    ensures w' == w[i := Cook(Looping, w[i].left[i := 0])] && LastRound(c, t, w', i + 1)
  {
    EarlyCount(c, i);
    BetweenMeals(c, s, c.Quota() - 1);
    w' := w[i := Cook(Looping, w[i].left[i := 0])];
    hide Here, Total, Done, Early, Staff, Quiet, Shaped, Between, Config.Quota, Config.Valid;
    assert w[i].left[i := w[i].left[i] - 1] == w[i].left[i := 0];
    t := Brings(c, s, w, i, i);
    StaysBetween(c, s, t, c.Quota() - 1);
  }

  lemma LastWaits(c: Config, s: State, w: seq<Cook>, rota: nat, i: nat, f: Kind) returns (t: State, w': seq<Cook>)
    requires LastRound(c, s, w, rota) && Missing(c, w)
    requires i < 3 && w[i].at.Looping? && f == NextKind(rota) && w[i].left[f] != 0
    ensures w' == w[i := Cook(Waiting(f), w[i].left)] && LastRound(c, t, w', f + 1)
  {
    w' := w[i := Cook(Waiting(f), w[i].left)];
    hide Quiet, Missing, Settled, Config.Quota;
    t := Waits(c, s, w, i, f);
  }

  lemma LastDeparts(c: Config, s: State, w: seq<Cook>, rota: nat, i: nat, f: Kind) returns (t: State, w': seq<Cook>)
    requires LastRound(c, s, w, rota) && Missing(c, w)
    requires i < 3 && w[i].at.Looping? && f == NextKind(rota) && w[i].left[f] == 0
    ensures w' == w[i := Cook(CookHome, w[i].left)] && LastRound(c, t, w', f + 1)
  {
    w' := w[i := Cook(CookHome, w[i].left)];
    hide Quiet, Missing, Settled, Config.Quota;
    t := Departs(c, s, w, i, f);
  }

  /** The late plate is soup: the first cook waits for it, the third one too, and the second departs. */
  lemma LateSoup(c: Config) returns (s: State, w: seq<Cook>)
    requires c.Valid() && c.Quota() > 0 && c.supply[|c.supply| - 1] == 0
    ensures LastPlateLate(c, s, w, 0, 0)
  {
    hide Quiet, Between, Config.Quota, Config.Valid;
    s := LastRoundBegins(c);
    w := Crew(c, c.Quota() - 1, 0);
    s, w := LastWaits(c, s, w, s.rota, 0, 0);
    s, w := LastBrings(c, s, w, 1, 1);
    s, w := LastBrings(c, s, w, 2, 2);
    s, w := LastWaits(c, s, w, 3, 2, 0);
    s, w := LastDeparts(c, s, w, 1, 1, 1);
  }

  /** The late plate is a main course: the second cook waits for it, and the first one departs. */
  lemma LateMainCourse(c: Config) returns (s: State, w: seq<Cook>)
    requires c.Valid() && c.Quota() > 0 && c.supply[|c.supply| - 1] == 1
    ensures LastPlateLate(c, s, w, 1, 1)
  {
    hide Quiet, Between, Config.Quota, Config.Valid;
    s := LastRoundBegins(c);
    w := Crew(c, c.Quota() - 1, 0);
    s, w := LastBrings(c, s, w, s.rota, 0);
    s, w := LastWaits(c, s, w, 1, 1, 1);
    s, w := LastBrings(c, s, w, 2, 2);
    s, w := LastDeparts(c, s, w, 3, 0, 0);
  }

  /** The late plate is a desert: the third cook waits for it, and the first one departs. */
  lemma LateDesert(c: Config) returns (s: State, w: seq<Cook>)
    requires c.Valid() && c.Quota() > 0 && c.supply[|c.supply| - 1] == 2
    ensures LastPlateLate(c, s, w, 2, 2)
  {
    hide Quiet, Between, Config.Quota, Config.Valid;
    s := LastRoundBegins(c);
    w := Crew(c, c.Quota() - 1, 0);
    s, w := LastBrings(c, s, w, s.rota, 0);
    s, w := LastBrings(c, s, w, 1, 1);
    s, w := LastWaits(c, s, w, 2, 2, 2);
    s, w := LastDeparts(c, s, w, 3, 0, 0);
  }

  // ---------------------------------------------------------------- runs without end

  /** Whichever plate comes last, some run gets to a state in which a cook can search in vain round after round. */
  lemma ReachesVain(c: Config) returns (s: State, i: nat, f: Kind)
    requires c.Valid() && c.Quota() > 0
    ensures Leads(c, Init(c), s) && AllVain(c, s, i, f) && s.rota == f + 1
  {
    assert |c.supply| == FOOD_KIND * c.Quota();
    hide Leads, LastPlateLate, AllVain, Config.Valid, Config.Quota;
    f := c.supply[|c.supply| - 1];
    i := f;
    var w;
    if f == 0 {
      s, w := LateSoup(c);
    } else if f == 1 {
      s, w := LateMainCourse(c);
    } else {
      s, w := LateDesert(c);
    }
    s := BeginsInVain(c, s, w, i, f);
    VainTurn(c, Init(c), s, i, f);
    var next := NextKind(s.rota);
    s, f := Turned(s, i, f), next;
  }

  /** As long as there is anything to deliver there are runs of any length. */
  lemma RunsWithoutEnd(c: Config, n: nat) returns (states: seq<State>)
    requires c.Valid() && c.Quota() > 0
    ensures Run(c, states) && |states| > n
  {
    hide AllVain, Follows, Config.Valid, Config.Quota;
    var s, i, f := ReachesVain(c);
    var there :| Path(c, there) && there[0] == Init(c) && there[|there| - 1] == s;
    var round := VainForever(c, s, i, f, n);
    states := Joined(c, there, round);
  }

  /** No number of vain searches is too large. */
  lemma SearchesWithoutEnd(c: Config, n: nat) returns (states: seq<State>)
    requires c.Valid() && c.Quota() > 0
    ensures Run(c, states) && FruitlessSearches(states) > n
  {
    hide FruitlessSearches, Budget, Run, Config.Valid, Config.Quota;
    states := RunsWithoutEnd(c, Budget(c) + 5 * n + 1);
    RunsAreBounded(c, states);
  }

  lemma {:induction false} NothingSought(c: Config, states: seq<State>)
    requires c.Valid() && Run(c, states) && c.Quota() == 0
    ensures FruitlessSearches(states) == 0
  {
    hide Follows, Total, KindInv, KitchenInv, PermitsInv, RotaInv, DepartureInv, RoomsInv, Config.Valid, Config.Quota;
    if |states| >= 2 {
      var before, s := states[..|states| - 1], states[|states| - 2];
      NothingSought(c, before);
      RunInv(c, states);
      assert Inv(c, s);
      forall i | 0 <= i < |s.cooks| ensures !s.cooks[i].at.Searching? {
        assert CookOk(c.Quota(), s.plates, s.cooks[i]);
      }
    }
  }

  /** No run has more states than that. */
  ghost predicate RunsEndWithin(c: Config, bound: nat) {
    forall states :: Run(c, states) ==> |states| <= bound
  }

  /** The runs of a mess hall are bounded in length exactly when nothing is ordered. */
  lemma BoundedExactly(c: Config)
    requires c.Valid()
    ensures (exists bound: nat :: RunsEndWithin(c, bound)) <==> c.Quota() == 0
  {
    hide Run, Budget, Config.Valid, Config.Quota;
    if c.Quota() == 0 {
      var bound: nat := Budget(c) + 1;
      forall states | Run(c, states) ensures |states| <= bound {
        NothingSought(c, states);
        RunsAreBounded(c, states);
      }
      assert RunsEndWithin(c, bound);
    } else {
      forall bound: nat ensures !RunsEndWithin(c, bound) {
        var states := RunsWithoutEnd(c, bound);
      }
    }
  }
}
