/** The mess hall as the program keeps it: four shared rooms that the processes change in place. */
module Hall {
  import opened Rooms
  import opened MessHall
  import opened MessHallInvariant
  import opened MessHallSteps

  /** One shared room: its slots, the number its peek cell shows, and its two groups of semaphores. */
  class Room {
    const slots: array<int>
    var empty: seq<int>
    var full: seq<int>
    var peek: int

    /** Empty slots; the free-slot tokens are split among the kinds when there is a divisor. */
    constructor (roomSize: nat, semSize: nat, divisor: nat, plates: int)
      requires divisor == 0 || divisor == FOOD_KIND
      ensures fresh(slots) && slots[..] == Vacant(roomSize)
      ensures |empty| == FOOD_KIND && full == [0, 0, 0] && peek == plates
      ensures forall f :: 0 <= f < FOOD_KIND ==>
        empty[f] == if divisor == 0 then semSize else semSize / FOOD_KIND + if f < semSize % FOOD_KIND then 1 else 0
    {
      slots := new int[roomSize](_ => EMPTY);
      full := [0, 0, 0];
      peek := plates;
      if divisor != 0 {
        var rem := semSize % divisor;
        var tokens := [];
        for i := 0 to rem
          invariant |tokens| == i && forall f :: 0 <= f < i ==> tokens[f] == semSize / divisor + 1
        {
          tokens := tokens + [semSize / divisor + 1];
        }
        for i := rem to FOOD_KIND
          invariant |tokens| == i && forall f :: 0 <= f < rem ==> tokens[f] == semSize / divisor + 1
          invariant forall f :: rem <= f < i ==> tokens[f] == semSize / divisor
        {
          tokens := tokens + [semSize / divisor];
        }
        empty := tokens;
      } else {
        empty := [semSize, semSize, semSize];
      }
    }

    /** The first slot that holds `item`, or -1. */
    method NextSlot(item: int) returns (slot: int)
      ensures slot == Next(slots[..], item)
    {
      for i := 0 to slots.Length
        invariant item !in slots[..i]
      {
        if slots[i] == item {
          assert slots[..][..i] == slots[..i];
          return i;
        }
      }
      assert slots[..slots.Length] == slots[..];
      return -1;
    }

    method PutItem(slot: nat, p: int)
      requires slot < slots.Length
      modifies slots
      ensures slots[..] == old(slots[..])[slot := p]
    {
      slots[slot] := p;
    }

    method GetItem(slot: nat) returns (item: int)
      requires slot < slots.Length
      modifies slots
      ensures item == old(slots[slot]) && slots[..] == old(slots[..])[slot := EMPTY]
    {
      item := slots[slot];
      slots[slot] := EMPTY;
    }
  }

  /** The initial state, field by field. */
  lemma InitialView(c: Config, s: State)
    requires s.supplier == (if c.Quota() == 0 then SupplierHome else AwaitingSlot) && s.sent == 0
    requires s.cooks == Init(c).cooks && s.students == Init(c).students
    requires s.supervisor == (if c.Quota() == 0 then SupervisorHome else Gathering(0)) && s.served == 0
    requires s.kitchen == Vacant(c.KitchenSize()) && s.counter == Vacant(c.S) && s.tables == Vacant(c.T)
    requires s.plates == FOOD_KIND * c.Quota() && s.kEmpty == c.KitchenSize() && s.kFull == [0, 0, 0]
    requires s.rota == FOOD_KIND * c.Quota() && |s.cEmpty| == FOOD_KIND && s.cFull == [0, 0, 0]
    requires forall f: Kind :: s.cEmpty[f] == c.Share(f)
    requires s.tEmpty == c.T && s.graduates == 0 && s.sEmpty == 0 && s.sFull == [0, 0] && !s.failed
    ensures s == Init(c)
  {
    assert s.cEmpty == [c.Share(0), c.Share(1), c.Share(2)];
  }

  method MakeCooks(c: Config) returns (cooks: array<Cook>)
    ensures fresh(cooks) && cooks[..] == Init(c).cooks
  {
    cooks := new Cook[c.N](i => Cook(Looping, [c.Quota(), c.Quota(), c.Quota()]));
  }

  method MakeStudents(c: Config) returns (students: array<Student>)
    ensures fresh(students) && students[..] == Init(c).students
  {
    students := new Student[c.U + c.G](i => Student(if c.L == 0 then StudentHome else Registering, 0, i >= c.U));
  }

  /** The four rooms with the processes around them; every method is one step of one process. */
  class Hall {
    const c: Config
    const kitchen: Room
    const counter: Room
    const table: Room
    const line: Room
    const cooks: array<Cook>
    const students: array<Student>
    var supplier: SupplierAt
    var sent: nat
    var supervisor: SupervisorAt
    var served: nat
    var failed: bool

    /** The rooms are distinct, and so are their slots. */
    ghost predicate Separate() {
      && kitchen != counter && kitchen != table && kitchen != line
      && counter != table && counter != line && table != line
      && kitchen.slots != counter.slots && kitchen.slots != table.slots && counter.slots != table.slots
    }

    ghost function Footprint(): set<object> {
      {this, kitchen, counter, table, line, kitchen.slots, counter.slots, table.slots, cooks, students}
    }

    ghost predicate Valid()
      reads Footprint()
    {
      && Separate()
      && |kitchen.empty| == |counter.empty| == |table.empty| == |line.empty| == FOOD_KIND
      && |kitchen.full| == |counter.full| == |table.full| == |line.full| == FOOD_KIND
      && counter.peek >= 0
    }

    /** The state the protocol's properties speak about. */
    ghost function View(): State
      requires Valid()
      reads Footprint()
    {
      State(supplier, sent, cooks[..], supervisor, served, students[..],
            kitchen.slots[..], kitchen.peek, kitchen.empty[0], kitchen.full,
            counter.slots[..], counter.peek, counter.empty, counter.full,
            table.slots[..], table.empty[0],
            line.peek, line.empty[0], line.full[..2],
            failed)
    }

    /** Creates the rooms and the processes. */
    constructor (c: Config)
      ensures fresh(Footprint()) && Valid() && this.c == c && View() == Init(c)
    {
      hide Init, Vacant, Config.Quota, Config.KitchenSize;
      this.c := c;
      var plates := FOOD_KIND * c.Quota();
      kitchen := new Room(c.KitchenSize(), c.KitchenSize(), 0, plates);
      counter := new Room(c.S, c.S, FOOD_KIND, plates);
      table := new Room(c.T, c.T, 0, plates);
      line := new Room(1, 0, 0, 0);
      var hired := MakeCooks(c);
      var enrolled := MakeStudents(c);
      cooks, students := hired, enrolled;
      supplier := if c.Quota() == 0 then SupplierHome else AwaitingSlot;
      supervisor := if c.Quota() == 0 then SupervisorHome else Gathering(0);
      sent, served, failed := 0, 0, false;
      new;
      InitialView(c, View());
    }

    method SupplierStep()
      requires Valid() && Enabled(c, View(), Supplier)
      modifies Footprint()
      ensures Valid() && View() == Exec(c, old(View()), Supplier)
    {
      hide Next;
      match supplier
      case AwaitingSlot =>
        kitchen.empty := kitchen.empty[0 := kitchen.empty[0] - 1];
        supplier := Storing;
      case Storing =>
        var slot := kitchen.NextSlot(EMPTY);
        if slot == -1 {
          failed := true;
        } else {
          kitchen.PutItem(slot, c.supply[sent]);
          supplier := Signalling;
        }
      case Signalling =>
        var food := c.supply[sent];
        kitchen.full := kitchen.full[food := kitchen.full[food] + 1];
        sent := sent + 1;
        supplier := if sent < |c.supply| then AwaitingSlot else SupplierHome;
    }

    /** The loop head, the rota and the way home. */
    method CookBetweenPlates(i: nat)
      requires Valid() && Enabled(c, View(), CookNo(i))
      requires cooks[i].at.Looping? || cooks[i].at.Picking? || cooks[i].at.Departing?
      modifies Footprint()
      ensures Valid() && View() == Exec(c, old(View()), CookNo(i))
    {
      hide Next;
      var cook := cooks[i];
      match cook.at
      case Looping =>
        cooks[i] := Cook(if kitchen.peek == 0 then Departing(0) else Picking, cook.left);
      case Picking =>
        if counter.peek >= FOOD_KIND { counter.peek := 0; }
        var food := counter.peek;
        counter.peek := counter.peek + 1;
        cooks[i] := Cook(if cook.left[food] == 0 then Departing(0) else Waiting(food), cook.left);
      case Departing(k) =>
        kitchen.full := kitchen.full[k := kitchen.full[k] + 1];
        cooks[i] := Cook(if k + 1 < FOOD_KIND then Departing(k + 1) else CookHome, cook.left);
    }

    /** From waiting for a plate to leaving the kitchen, with or without one. */
    method CookInKitchen(i: nat)
      requires Valid() && Enabled(c, View(), CookNo(i))
      requires cooks[i].at.Waiting? || cooks[i].at.Searching? || cooks[i].at.Returning? || cooks[i].at.Leaving?
      modifies Footprint()
      ensures Valid() && View() == Exec(c, old(View()), CookNo(i))
    {
      hide Next;
      var cook := cooks[i];
      match cook.at
      case Waiting(f) =>
        kitchen.full := kitchen.full[f := kitchen.full[f] - 1];
        cooks[i] := Cook(Searching(f), cook.left);
      case Searching(f) =>
        var slot := kitchen.NextSlot(f);
        if slot == -1 {
          cooks[i] := Cook(Returning(f), cook.left);
        } else {
          var food := kitchen.GetItem(slot);
          kitchen.peek := kitchen.peek - 1;
          cooks[i] := Cook(Leaving(f), cook.left);
        }
      case Returning(f) =>
        kitchen.full := kitchen.full[f := kitchen.full[f] + 1];
        cooks[i] := Cook(Looping, cook.left);
      case Leaving(f) =>
        kitchen.empty := kitchen.empty[0 := kitchen.empty[0] + 1];
        cooks[i] := Cook(Queuing(f), cook.left);
    }

    /** From queuing at the counter to announcing the plate. */
    method CookAtCounter(i: nat)
      requires Valid() && Enabled(c, View(), CookNo(i))
      requires cooks[i].at.Queuing? || cooks[i].at.Serving? || cooks[i].at.Announcing?
      modifies Footprint()
      ensures Valid() && View() == Exec(c, old(View()), CookNo(i))
    {
      hide Next;
      var cook := cooks[i];
      match cook.at
      case Queuing(f) =>
        counter.empty := counter.empty[f := counter.empty[f] - 1];
        cooks[i] := Cook(Serving(f), cook.left);
      case Serving(f) =>
        var slot := counter.NextSlot(EMPTY);
        if slot == -1 {
          failed := true;
        } else {
          counter.PutItem(slot, f);
          cooks[i] := Cook(Announcing(f), cook.left[f := cook.left[f] - 1]);
        }
      case Announcing(f) =>
        counter.full := counter.full[f := counter.full[f] + 1];
        cooks[i] := Cook(Looping, cook.left);
    }

    method CookStep(i: nat)
      requires Valid() && Enabled(c, View(), CookNo(i))
      modifies Footprint()
      ensures Valid() && View() == Exec(c, old(View()), CookNo(i))
    {
      hide Exec, Next;
      var at := cooks[i].at;
      if at.Looping? || at.Picking? || at.Departing? {
        CookBetweenPlates(i);
      } else if at.Waiting? || at.Searching? || at.Returning? || at.Leaving? {
        CookInKitchen(i);
      } else {
        CookAtCounter(i);
      }
    }

    method SupervisorStep()
      requires Valid() && Enabled(c, View(), Supervisor)
      modifies Footprint()
      ensures Valid() && View() == Exec(c, old(View()), Supervisor)
    {
      match supervisor
      case Gathering(k) =>
        counter.full := counter.full[k := counter.full[k] - 1];
        supervisor := if k + 1 < FOOD_KIND then Gathering(k + 1) else Calling;
      case Calling =>
        line.empty := line.empty[0 := line.empty[0] - 1];
        supervisor := Choosing;
      case Choosing =>
        var graduate := line.peek != 0;
        if graduate { line.peek := line.peek - 1; }
        supervisor := Admitting(graduate);
      case Admitting(graduate) =>
        var group := if graduate then 1 else 0;
        line.full := line.full[group := line.full[group] + 1];
        served := served + 1;
        supervisor := if served < c.Quota() then Gathering(0) else SupervisorHome;
    }

    /** Takes one plate of each kind off the counter; false where the program's assertion fails. */
    method TakePlates() returns (ok: bool)
      requires Valid()
      modifies counter, counter.slots
      ensures Valid() && counter.peek == old(counter.peek) && counter.full == old(counter.full)
      ensures ok <==> TakeThree(old(counter.slots[..]), 0) != []
      ensures ok ==> counter.slots[..] == TakeThree(old(counter.slots[..]), 0)
      ensures ok ==> counter.empty == [old(counter.empty[0]) + 1, old(counter.empty[1]) + 1, old(counter.empty[2]) + 1]
    {
      hide Next;
      for p := 0 to FOOD_KIND
        invariant Valid() && counter.peek == old(counter.peek) && counter.full == old(counter.full)
        invariant TakeThree(counter.slots[..], p) == TakeThree(old(counter.slots[..]), 0)
        invariant forall f :: 0 <= f < FOOD_KIND ==> counter.empty[f] == old(counter.empty)[f] + if f < p then 1 else 0
        invariant p > 0 ==> counter.slots.Length > 0
      {
        var slot := counter.NextSlot(p);
        if slot == -1 {
          return false;
        }
        var food := counter.GetItem(slot);
        counter.empty := counter.empty[p := counter.empty[p] + 1];
      }
      ok := true;
    }

    /** From registering to holding a permit. */
    method StudentInLine(j: nat)
      requires Valid() && Enabled(c, View(), StudentNo(j))
      requires students[j].at.Registering? || students[j].at.Lining? || students[j].at.Hoping?
      modifies Footprint()
      ensures Valid() && failed == Exec(c, old(View()), StudentNo(j)).failed
      ensures !failed ==> View() == Exec(c, old(View()), StudentNo(j))
    {
      hide Next, TakeThree;
      var student := students[j];
      var graduate := if student.graduate then 1 else 0;
      match student.at
      case Registering =>
        line.peek := line.peek + graduate;
        students[j] := student.(at := Lining);
      case Lining =>
        line.empty := line.empty[0 := line.empty[0] + 1];
        students[j] := student.(at := Hoping);
      case Hoping =>
        line.full := line.full[graduate := line.full[graduate] - 1];
        students[j] := student.(at := Collecting);
    }

    /** From the counter to the table and away from it. */
    method StudentEats(j: nat)
      requires Valid() && Enabled(c, View(), StudentNo(j))
      requires var at := students[j].at; at.Collecting? || at.Seating? || at.Eating? || at.Standing?
      modifies Footprint()
      ensures Valid() && failed == Exec(c, old(View()), StudentNo(j)).failed
      ensures !failed ==> View() == Exec(c, old(View()), StudentNo(j))
    {
      hide Next, TakeThree;
      var student := students[j];
      match student.at
      case Collecting =>
        var ok := TakePlates();
        if ok {
          students[j] := student.(at := Seating);
        } else {
          failed := true;
        }
      case Seating =>
        table.empty := table.empty[0 := table.empty[0] - 1];
        students[j] := student.(at := Eating);
      case Eating =>
        var slot := table.NextSlot(EMPTY);
        if slot == -1 {
          failed := true;
        } else {
          table.PutItem(slot, 1);
          table.PutItem(slot, EMPTY);
          students[j] := student.(at := Standing);
        }
      case Standing =>
        table.empty := table.empty[0 := table.empty[0] + 1];
        students[j] := Student(if student.round + 1 < c.L then Registering else StudentHome,
                               student.round + 1, student.graduate);
    }

    /** Where an assertion fails the program stops, and what it leaves on the counter is not specified. */
    method StudentStep(j: nat)
      requires Valid() && Enabled(c, View(), StudentNo(j))
      modifies Footprint()
      ensures Valid() && failed == Exec(c, old(View()), StudentNo(j)).failed
      ensures !failed ==> View() == Exec(c, old(View()), StudentNo(j))
    {
      hide Exec, Next, TakeThree;
      var at := students[j].at;
      if at.Registering? || at.Lining? || at.Hoping? {
        StudentInLine(j);
      } else {
        StudentEats(j);
      }
    }

    /** Any enabled step of any process follows the protocol, keeps its invariant and never fails. */
    method Step(p: Process)
      requires Valid() && c.Valid() && Inv(c, View()) && Enabled(c, View(), p)
      modifies Footprint()
      ensures Valid() && Inv(c, View()) && View() == Exec(c, old(View()), p) && !failed
    {
      ghost var s := View();
      hide Exec, Enabled, Config.Valid;
      StepKeeps(c, s, p);
      assert !Exec(c, s, p).failed;
      hide Inv;
      match p
      case Supplier => SupplierStep();
      case CookNo(i) => CookStep(i);
      case Supervisor => SupervisorStep();
      case StudentNo(j) => StudentStep(j);
    }
  }
}
