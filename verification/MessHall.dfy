/**
 The mess hall protocol as a transition system: one supplier, N cooks, one supervisor and
 U + G students, one step per semaphore operation or critical-section body.
 */
module MessHall {
  import opened Rooms

  /** The command-line parameters, and the contents of the supply file. */
  datatype Config = Config(N: nat, U: nat, G: nat, S: nat, T: nat, L: nat, supply: seq<Kind>) {
    /** LM: how many plates of each kind are delivered, and how many meals are eaten. */
    function Quota(): nat { L * (U + G) }

    /** K = 2LM + 1. */
    function KitchenSize(): nat { 2 * L * (U + G) + 1 }

    /** Counter slots that plates of kind f may occupy. */
    function Share(f: Kind): nat { S / FOOD_KIND + (if f < S % FOOD_KIND then 1 else 0) }

    predicate Valid() {
      && N >= 3 && S >= 4 && T >= 2
      && |supply| == FOOD_KIND * Quota()
      && forall f: Kind :: multiset(supply)[f] == Quota()
    }
  }

  datatype SupplierAt = AwaitingSlot | Storing | Signalling | SupplierHome

  datatype CookAt =
    | Looping                    // about to test whether everything has left the kitchen
    | Picking                    // about to take the next kind from the rota
    | Waiting(food: Kind)        // on k.full[food]
    | Searching(food: Kind)      // holds a k.full[food] token, about to search the kitchen
    | Returning(food: Kind)      // found nothing, about to give the token back
    | Leaving(food: Kind)        // holds a plate, about to post k.empty
    | Queuing(food: Kind)        // on c.empty[food]
    | Serving(food: Kind)        // holds a c.empty[food] token, about to put the plate down
    | Announcing(food: Kind)     // plate is down, about to post c.full[food]
    | Departing(next: Kind)      // about to post k.full[next] on the way home
    | CookHome

  /** `left[f]` is the cook's own count of plates of kind f that are still to be delivered. */
  datatype Cook = Cook(at: CookAt, left: seq<int>)

  datatype SupervisorAt =
    | Gathering(next: Kind)      // on c.full[next]
    | Calling                    // on s.empty
    | Choosing                   // about to read the number of waiting graduates
    | Admitting(graduate: bool)  // about to post s.full
    | SupervisorHome

  datatype StudentAt =
    | Registering                // about to count itself among the graduates, if it is one
    | Lining                     // about to post s.empty
    | Hoping                     // on s.full of its class
    | Collecting                 // holds a permit, about to take three plates
    | Seating                    // on t.empty
    | Eating                     // holds a table token
    | Standing                   // about to post t.empty
    | StudentHome

  datatype Student = Student(at: StudentAt, round: nat, graduate: bool)

  datatype State = State(
    supplier: SupplierAt, sent: nat,
    cooks: seq<Cook>,
    supervisor: SupervisorAt, served: nat,
    students: seq<Student>,
    kitchen: seq<int>, plates: int, kEmpty: int, kFull: seq<int>,
    counter: seq<int>, rota: nat, cEmpty: seq<int>, cFull: seq<int>,
    tables: seq<int>, tEmpty: int,
    graduates: int, sEmpty: int, sFull: seq<int>,
    failed: bool)

  datatype Process = Supplier | CookNo(i: nat) | Supervisor | StudentNo(j: nat)

  function Class(graduate: bool): nat { if graduate then 1 else 0 }

  function Init(c: Config): State {
    State(
      if c.Quota() == 0 then SupplierHome else AwaitingSlot, 0,
      seq(c.N, i => Cook(Looping, [c.Quota(), c.Quota(), c.Quota()])),
      if c.Quota() == 0 then SupervisorHome else Gathering(0), 0,
      seq(c.U + c.G, i => Student(if c.L == 0 then StudentHome else Registering, 0, i >= c.U)),
      Vacant(c.KitchenSize()), FOOD_KIND * c.Quota(), c.KitchenSize(), [0, 0, 0],
      Vacant(c.S), FOOD_KIND * c.Quota(), [c.Share(0), c.Share(1), c.Share(2)], [0, 0, 0],
      Vacant(c.T), c.T,
      0, 0, [0, 0],
      false)
  }

  /** Every array, local or shared, has its declared length, and the supply cursor is in the file. */
  predicate Shaped(c: Config, s: State) {
    && |s.cooks| == c.N && |s.students| == c.U + c.G
    && |s.kitchen| == c.KitchenSize() && |s.counter| == c.S && |s.tables| == c.T
    && |s.kFull| == |s.cEmpty| == |s.cFull| == FOOD_KIND && |s.sFull| == 2
    && (forall i :: 0 <= i < |s.cooks| ==> |s.cooks[i].left| == FOOD_KIND)
    && s.sent <= |c.supply| && (s.supplier.SupplierHome? <==> s.sent == |c.supply|)
  }

  /** The kind a cook takes when the rota shows `rota`. */
  function NextKind(rota: nat): Kind { if rota >= FOOD_KIND then 0 else rota }

  /** Process p exists, is not done, and is not blocked on a semaphore. */
  predicate Enabled(c: Config, s: State, p: Process) {
    && Shaped(c, s) && !s.failed
    && match p
       case Supplier => !s.supplier.SupplierHome? && (s.supplier.AwaitingSlot? ==> s.kEmpty > 0)
       case CookNo(i) => i < |s.cooks| && CookEnabled(c, s, s.cooks[i].at)
       case Supervisor =>
         (match s.supervisor
          case Gathering(k) => s.cFull[k] > 0
          case Calling => s.sEmpty > 0
          case SupervisorHome => false
          case _ => true)
       case StudentNo(j) => j < |s.students| && StudentEnabled(c, s, s.students[j])
  }

  predicate CookEnabled(c: Config, s: State, at: CookAt)
    requires Shaped(c, s)
  {
    match at
    case Waiting(f) => s.kFull[f] > 0
    case Queuing(f) => s.cEmpty[f] > 0
    case CookHome => false
    case _ => true
  }

  predicate StudentEnabled(c: Config, s: State, student: Student)
    requires Shaped(c, s)
  {
    match student.at
    case Hoping => s.sFull[Class(student.graduate)] > 0
    case Seating => s.tEmpty > 0
    case StudentHome => false
    case _ => true
  }

  function Exec(c: Config, s: State, p: Process): State
    requires Enabled(c, s, p)
  {
    match p
    case Supplier => SupplierStep(c, s)
    case CookNo(i) => CookStep(c, s, i)
    case Supervisor => SupervisorStep(c, s)
    case StudentNo(j) => StudentStep(c, s, j)
  }

  function SupplierStep(c: Config, s: State): State
    requires Enabled(c, s, Supplier)
  {
    var food: int := c.supply[s.sent];
    match s.supplier
    case AwaitingSlot => s.(supplier := Storing, kEmpty := s.kEmpty - 1)
    case Storing =>
      var slot := Next(s.kitchen, EMPTY);
      if slot == -1 then s.(failed := true)
      else s.(supplier := Signalling, kitchen := s.kitchen[slot := food])
    case Signalling =>
      s.(supplier := if s.sent + 1 < |c.supply| then AwaitingSlot else SupplierHome,
         sent := s.sent + 1, kFull := s.kFull[food := s.kFull[food] + 1])
  }

  function CookStep(c: Config, s: State, i: nat): State
    requires Enabled(c, s, CookNo(i))
  {
    var cook := s.cooks[i];
    match cook.at
    case Looping => Moved(s, i, if s.plates == 0 then Departing(0) else Picking)
    case Picking =>
      var f := NextKind(s.rota);
      Moved(s, i, if cook.left[f] == 0 then Departing(0) else Waiting(f)).(rota := f + 1)
    case Waiting(f) => Moved(s, i, Searching(f)).(kFull := s.kFull[f := s.kFull[f] - 1])
    case Searching(f) =>
      var slot := Next(s.kitchen, f);
      if slot == -1 then Moved(s, i, Returning(f))
      else Moved(s, i, Leaving(f)).(kitchen := s.kitchen[slot := EMPTY], plates := s.plates - 1)
    case Returning(f) => Moved(s, i, Looping).(kFull := s.kFull[f := s.kFull[f] + 1])
    case Leaving(f) => Moved(s, i, Queuing(f)).(kEmpty := s.kEmpty + 1)
    case Queuing(f) => Moved(s, i, Serving(f)).(cEmpty := s.cEmpty[f := s.cEmpty[f] - 1])
    case Serving(f) =>
      var slot := Next(s.counter, EMPTY);
      if slot == -1 then s.(failed := true)
      else s.(cooks := s.cooks[i := Cook(Announcing(f), cook.left[f := cook.left[f] - 1])],
              counter := s.counter[slot := f])
    case Announcing(f) => Moved(s, i, Looping).(cFull := s.cFull[f := s.cFull[f] + 1])
    case Departing(k) =>
      Moved(s, i, if k + 1 < FOOD_KIND then Departing(k + 1) else CookHome)
        .(kFull := s.kFull[k := s.kFull[k] + 1])
  }

  function Moved(s: State, i: nat, at: CookAt): State
    requires i < |s.cooks|
  {
    s.(cooks := s.cooks[i := Cook(at, s.cooks[i].left)])
  }

  function SupervisorStep(c: Config, s: State): State
    requires Enabled(c, s, Supervisor)
  {
    match s.supervisor
    case Gathering(k) =>
      s.(supervisor := if k + 1 < FOOD_KIND then Gathering(k + 1) else Calling,
         cFull := s.cFull[k := s.cFull[k] - 1])
    case Calling => s.(supervisor := Choosing, sEmpty := s.sEmpty - 1)
    case Choosing =>
      var graduate := s.graduates != 0;
      s.(supervisor := Admitting(graduate), graduates := s.graduates - Class(graduate))
    case Admitting(graduate) =>
      s.(supervisor := if s.served + 1 < c.Quota() then Gathering(0) else SupervisorHome,
         served := s.served + 1,
         sFull := s.sFull[Class(graduate) := s.sFull[Class(graduate)] + 1])
  }

  function StudentStep(c: Config, s: State, j: nat): State
    requires Enabled(c, s, StudentNo(j))
  {
    var student := s.students[j];
    var g := Class(student.graduate);
    match student.at
    case Registering => Shifted(s, j, Lining).(graduates := s.graduates + g)
    case Lining => Shifted(s, j, Hoping).(sEmpty := s.sEmpty + 1)
    case Hoping => Shifted(s, j, Collecting).(sFull := s.sFull[g := s.sFull[g] - 1])
    case Collecting =>
      var after := TakeThree(s.counter, 0);
      if after == [] then s.(failed := true)
      else Shifted(s, j, Seating).(counter := after,
                                   cEmpty := [s.cEmpty[0] + 1, s.cEmpty[1] + 1, s.cEmpty[2] + 1])
    case Seating => Shifted(s, j, Eating).(tEmpty := s.tEmpty - 1)
    case Eating =>
      var slot := Next(s.tables, EMPTY);
      if slot == -1 then s.(failed := true)
      else Shifted(s, j, Standing).(tables := s.tables[slot := 1][slot := EMPTY])
    case Standing =>
      var at := if student.round + 1 < c.L then Registering else StudentHome;
      s.(students := s.students[j := Student(at, student.round + 1, student.graduate)],
         tEmpty := s.tEmpty + 1)
  }

  function Shifted(s: State, j: nat, at: StudentAt): State
    requires j < |s.students|
  {
    s.(students := s.students[j := s.students[j].(at := at)])
  }

  /** The counter after one plate of each kind from k on is taken, or [] when one is missing. */
  function TakeThree(counter: seq<int>, k: nat): seq<int>
    requires k <= FOOD_KIND
    decreases FOOD_KIND - k
  {
    if k == FOOD_KIND then counter
    else
      var slot := Next(counter, k);
      if slot == -1 then [] else TakeThree(counter[slot := EMPTY], k + 1)
  }

  /** A finite run: states[0] is initial and every state follows from its predecessor by one step. */
  ghost predicate Run(c: Config, states: seq<State>) {
    && |states| > 0 && states[0] == Init(c)
    && forall k :: 0 < k < |states| ==> Follows(c, states[k - 1], states[k])
  }

  ghost predicate Follows(c: Config, s: State, s': State) {
    exists p :: Enabled(c, s, p) && s' == Exec(c, s, p)
  }

  predicate AllHome(s: State) {
    && s.supplier.SupplierHome? && s.supervisor.SupervisorHome?
    && (forall i :: 0 <= i < |s.cooks| ==> s.cooks[i].at.CookHome?)
    && (forall j :: 0 <= j < |s.students| ==> s.students[j].at.StudentHome?)
  }
}
