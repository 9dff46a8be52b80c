/**
 The chefs and the wholesaler as a transition system. A System V wait takes one unit from both
 semaphores of a pair or blocks; `log` records which chef took each delivery.
 */
module DessertProtocol {
  import opened Desserts
  import opened Tally

  datatype ChefAt =
    | Checking            // about to read `finished` at the loop head
    | Waiting             // on both semaphores of the pair
    | Rechecking          // woken, about to read `finished` again
    | Taking              // about to empty the store
    | Preparing           // about to post the dessert
    | Posting(k: ChefIndex)  // leaving: about to post chef k's pair
    | Gone

  datatype Chef = Chef(index: nat, at: ChefAt)

  datatype WholesalerAt = Delivering | Signalling | Selling | Finishing | Farewell | Left

  datatype State = State(sems: seq<int>, dessert: int, finished: bool, store: bv8, chefs: seq<Chef>,
                         wholesaler: WholesalerAt, sent: nat, log: seq<nat>)

  datatype Process = Wholesaler | ChefNo(i: nat)

  const CALM: seq<int> := [0, 0, 0, 0]

  function Init(): State {
    State(CALM, 0, false, EMPTY, seq(CHEF_NUMBER, i requires 0 <= i < CHEF_NUMBER => Chef(i, Checking)),
          Delivering, 0, [])
  }

  /** One unit more on both semaphores of chef i's pair. */
  function Posted(sems: seq<int>, i: nat): (r: seq<int>)
    requires |sems| == INGREDIENT_NUMBER
    ensures |r| == |sems|
  {
    seq(|sems|, r requires 0 <= r < |sems| => sems[r] + if Uses(i, r) then 1 else 0)
  }

  /** One unit less on both. */
  function Taken(sems: seq<int>, i: nat): (r: seq<int>)
    requires |sems| == INGREDIENT_NUMBER
    ensures |r| == |sems|
  {
    seq(|sems|, r requires 0 <= r < |sems| => sems[r] - if Uses(i, r) then 1 else 0)
  }

  predicate Shaped(supply: seq<Line>, s: State) {
    && ValidSupply(supply)
    && |s.sems| == INGREDIENT_NUMBER && |s.chefs| == CHEF_NUMBER && s.sent <= |supply|
    && (forall i :: 0 <= i < CHEF_NUMBER ==> s.chefs[i].index == i)
    && (s.wholesaler.Delivering? || s.wholesaler.Signalling? || s.wholesaler.Selling? ==> s.sent < |supply|)
  }

  predicate Enabled(supply: seq<Line>, s: State, p: Process) {
    && Shaped(supply, s)
    && match p
       case Wholesaler => !s.wholesaler.Left? && (s.wholesaler.Selling? ==> s.dessert > 0)
       case ChefNo(i) =>
         && i < CHEF_NUMBER && !s.chefs[i].at.Gone?
         && (s.chefs[i].at.Waiting? ==> s.sems[First(i)] > 0 && s.sems[Second(i)] > 0)
  }

  function Exec(supply: seq<Line>, s: State, p: Process): State
    requires Enabled(supply, s, p)
  {
    match p
    case Wholesaler => WholesalerStep(supply, s)
    case ChefNo(i) => ChefStep(supply, s, i)
  }

  function WholesalerStep(supply: seq<Line>, s: State): State
    requires Enabled(supply, s, Wholesaler)
  {
    match s.wholesaler
    case Delivering => s.(store := LineMask(supply[s.sent]), wholesaler := Signalling)
    case Signalling => s.(sems := Posted(s.sems, Target(supply[s.sent])), wholesaler := Selling)
    case Selling =>
      s.(dessert := s.dessert - 1, sent := s.sent + 1,
         wholesaler := if s.sent + 1 < |supply| then Delivering else Finishing)
    case Finishing => s.(finished := true, wholesaler := Farewell)
    case Farewell => s.(sems := Posted(s.sems, Target(supply[|supply| - 1])), wholesaler := Left)
  }

  function ChefStep(supply: seq<Line>, s: State, i: nat): State
    requires Enabled(supply, s, ChefNo(i))
  {
    match s.chefs[i].at
    case Checking => Moved(s, i, if s.finished then Posting(0) else Waiting)
    case Waiting => Moved(s, i, Rechecking).(sems := Taken(s.sems, i))
    case Rechecking => Moved(s, i, if s.finished then Posting(0) else Taking)
    case Taking => Moved(s, i, Preparing).(store := EMPTY, log := s.log + [i])
    case Preparing => Moved(s, i, Checking).(dessert := s.dessert + 1)
    case Posting(k) =>
      Moved(s, i, if k + 1 < CHEF_NUMBER then Posting(k + 1) else Gone).(sems := Posted(s.sems, k))
  }

  function Moved(s: State, i: nat, at: ChefAt): State
    requires i < |s.chefs|
  {
    s.(chefs := s.chefs[i := Chef(i, at)])
  }

  /** A finite run: states[0] is initial and every state follows from its predecessor by one step. */
  ghost predicate Run(supply: seq<Line>, states: seq<State>) {
    && |states| > 0 && states[0] == Init()
    && forall k :: 0 < k < |states| ==> Follows(supply, states[k - 1], states[k])
  }

  ghost predicate Follows(supply: seq<Line>, s: State, s': State) {
    exists p :: Enabled(supply, s, p) && s' == Exec(supply, s, p)
  }

  ghost predicate Reachable(supply: seq<Line>, s: State) {
    exists states :: Run(supply, states) && states[|states| - 1] == s
  }

  predicate AllHome(s: State) {
    s.wholesaler.Left? && forall i :: 0 <= i < |s.chefs| ==> s.chefs[i].at.Gone?
  }

  // ---------------------------------------------------------------- the invariant

  predicate AtRest(chef: Chef) { chef.at.Checking? || chef.at.Waiting? }

  predicate Quiet(s: State) { forall i :: 0 <= i < |s.chefs| ==> AtRest(s.chefs[i]) }

  /** Between deliveries: nothing is posted, nobody is at work, everything delivered was taken. */
  predicate Idle(supply: seq<Line>, s: State)
    requires Shaped(supply, s)
  {
    s.sems == CALM && s.dessert == 0 && Quiet(s) && s.log == Targets(supply)[..s.sent]
  }

  /** The pair is posted and the chef who needs it has not taken it from the semaphores. */
  predicate Offered(supply: seq<Line>, s: State)
    requires Shaped(supply, s) && s.sent < |supply|
  {
    && s.sems == Posted(CALM, Target(supply[s.sent])) && s.dessert == 0 && Quiet(s)
    && s.store == LineMask(supply[s.sent]) && s.log == Targets(supply)[..s.sent]
  }

  /** The chef the delivery is for, and no other, is at work. */
  predicate Cooking(supply: seq<Line>, s: State)
    requires Shaped(supply, s) && s.sent < |supply|
  {
    var p := Target(supply[s.sent]);
    var at := s.chefs[p].at;
    && s.sems == CALM && s.dessert == 0
    && (forall i :: 0 <= i < CHEF_NUMBER && i != p ==> AtRest(s.chefs[i]))
    && (at.Rechecking? || at.Taking? || at.Preparing?)
    && s.log == Targets(supply)[..s.sent + if at.Preparing? then 1 else 0]
    && (at.Preparing? || s.store == LineMask(supply[s.sent]))
  }

  predicate Cooked(supply: seq<Line>, s: State)
    requires Shaped(supply, s) && s.sent < |supply|
  {
    s.sems == CALM && s.dessert == 1 && Quiet(s) && s.log == Targets(supply)[..s.sent + 1]
  }

  predicate Before(supply: seq<Line>, s: State)
    requires Shaped(supply, s)
  {
    match s.wholesaler
    case Delivering => Idle(supply, s)
    case Signalling => Idle(supply, s) && s.store == LineMask(supply[s.sent])
    case Selling => Offered(supply, s) || Cooking(supply, s) || Cooked(supply, s)
    case Finishing => Idle(supply, s) && s.sent == |supply|
    case _ => false
  }

  /** How often the first k pairs contain ingredient r. */
  function Posts(k: nat, r: nat): nat {
    if k == 0 then 0 else Posts(k - 1, r) + if Uses(k - 1, r) then 1 else 0
  }

  /** What a chef has posted on semaphore r on the way out, less what it may have taken since the end. */
  function Net(r: nat): Chef -> int {
    (chef: Chef) =>
      match chef.at
      case Posting(k) => Posts(k, r) - (if Uses(chef.index, r) then 1 else 0)
      case Gone => Posts(CHEF_NUMBER, r) - (if Uses(chef.index, r) then 1 else 0)
      case Rechecking => if Uses(chef.index, r) then -1 else 0
      case _ => 0
  }

  /** What is at least on semaphore r after the end. */
  function Floor(supply: seq<Line>, s: State, r: nat): int
    requires Shaped(supply, s)
  {
    (if s.wholesaler.Left? && Uses(Target(supply[|supply| - 1]), r) then 1 else 0) + Total(Net(r), s.chefs)
  }

  predicate After(supply: seq<Line>, s: State)
    requires Shaped(supply, s)
  {
    && (s.wholesaler.Farewell? || s.wholesaler.Left?)
    && s.sent == |supply| && s.dessert == 0 && s.log == Targets(supply)
    && (forall i :: 0 <= i < CHEF_NUMBER ==> !s.chefs[i].at.Taking? && !s.chefs[i].at.Preparing?)
    && (forall r :: 0 <= r < INGREDIENT_NUMBER ==> s.sems[r] >= Floor(supply, s, r))
  }

  predicate Inv(supply: seq<Line>, s: State) {
    Shaped(supply, s) && if s.finished then After(supply, s) else Before(supply, s)
  }

  // ---------------------------------------------------------------- every step keeps it

  lemma InitInv(supply: seq<Line>)
    requires ValidSupply(supply)
    ensures Inv(supply, Init())
  {
  }

  /** Of a single posted pair only the chef who lacks exactly that pair can take both halves. */
  lemma OnlyOwnPair(i: nat, p: nat)
    requires i < CHEF_NUMBER && p < CHEF_NUMBER
    requires var sems := Posted(CALM, p); sems[First(i)] > 0 && sems[Second(i)] > 0
    ensures i == p && Taken(Posted(CALM, p), i) == CALM
  {
  }

  lemma WholesalerKeepsBefore(supply: seq<Line>, s: State)
    requires Inv(supply, s) && !s.finished && Enabled(supply, s, Wholesaler) && !s.wholesaler.Finishing?
    ensures Inv(supply, Exec(supply, s, Wholesaler))
  {
    hide LineMask, Total;
    assert s.wholesaler.Selling? ==> Cooked(supply, s);
    assert s.wholesaler.Signalling? ==> Offered(supply, Exec(supply, s, Wholesaler));
  }

  lemma WholesalerEnds(supply: seq<Line>, s: State)
    requires Inv(supply, s) && !s.finished && Enabled(supply, s, Wholesaler) && s.wholesaler.Finishing?
    ensures Inv(supply, Exec(supply, s, Wholesaler))
  {
    hide LineMask, Target;
    forall r | 0 <= r < INGREDIENT_NUMBER ensures Total(Net(r), s.chefs) == 0 {
      TotalAtMost(Net(r), s.chefs, 0);
    }
  }

  lemma WholesalerLeaves(supply: seq<Line>, s: State)
    requires Inv(supply, s) && s.finished && Enabled(supply, s, Wholesaler)
    ensures Inv(supply, Exec(supply, s, Wholesaler))
  {
    hide LineMask, Total;
    var s' := Exec(supply, s, Wholesaler);
    forall r | 0 <= r < INGREDIENT_NUMBER ensures s'.sems[r] >= Floor(supply, s', r) {
      assert s.sems[r] >= Floor(supply, s, r);
    }
  }

  lemma RestingKeepsBefore(supply: seq<Line>, s: State, i: nat)
    requires Inv(supply, s) && !s.finished && Enabled(supply, s, ChefNo(i)) && s.chefs[i].at.Checking?
    ensures Inv(supply, Exec(supply, s, ChefNo(i)))
  {
    hide LineMask, Total, Target, Posted, Taken, First, Second, Targets;
  }

  lemma WaitingKeepsBefore(supply: seq<Line>, s: State, i: nat)
    requires Inv(supply, s) && !s.finished && Enabled(supply, s, ChefNo(i)) && s.chefs[i].at.Waiting?
    ensures Inv(supply, Exec(supply, s, ChefNo(i)))
  {
    hide LineMask, Total, Target, Posted, Taken, Targets;
    assert s.wholesaler.Selling? && Offered(supply, s);
    OnlyOwnPair(i, Target(supply[s.sent]));
    assert Cooking(supply, Exec(supply, s, ChefNo(i)));
  }

  lemma WorkingKeepsBefore(supply: seq<Line>, s: State, i: nat)
    requires Inv(supply, s) && !s.finished && Enabled(supply, s, ChefNo(i)) && !AtRest(s.chefs[i])
    ensures Inv(supply, Exec(supply, s, ChefNo(i)))
  {
    hide LineMask, Total, Target, Posted, Taken, First, Second;
    var s' := Exec(supply, s, ChefNo(i));
    assert s.wholesaler.Selling? && Cooking(supply, s);
    assert if s.chefs[i].at.Preparing? then Cooked(supply, s') else Cooking(supply, s');
  }

  lemma ChefKeepsAfter(supply: seq<Line>, s: State, i: nat)
    requires Inv(supply, s) && s.finished && Enabled(supply, s, ChefNo(i))
    ensures Inv(supply, Exec(supply, s, ChefNo(i)))
  {
    hide LineMask, Total, Target, Targets, First, Second, Uses, ValidLine;
    var s' := Exec(supply, s, ChefNo(i));
    forall r | 0 <= r < INGREDIENT_NUMBER ensures s'.sems[r] >= Floor(supply, s', r) {
      assert s.sems[r] >= Floor(supply, s, r);
      TotalUpdate(Net(r), s.chefs, i, s'.chefs[i]);
      match s.chefs[i].at
      case Checking =>
      case Waiting =>
      case Rechecking =>
      case Taking =>
      case Preparing =>
      case Posting(_) =>
    }
  }

  lemma StepKeeps(supply: seq<Line>, s: State, p: Process)
    requires Inv(supply, s) && Enabled(supply, s, p)
    ensures Inv(supply, Exec(supply, s, p))
  {
    hide Inv, Enabled, Exec;
    match p
    case Wholesaler => WholesalerKeeps(supply, s);
    case ChefNo(i) => ChefKeeps(supply, s, i);
  }

  lemma ChefKeeps(supply: seq<Line>, s: State, i: nat)
    requires Inv(supply, s) && Enabled(supply, s, ChefNo(i))
    ensures Inv(supply, Exec(supply, s, ChefNo(i)))
  {
    hide Inv, Exec, First, Second, ValidSupply;
    if s.finished { ChefKeepsAfter(supply, s, i); }
    else if s.chefs[i].at.Checking? { RestingKeepsBefore(supply, s, i); }
    else if s.chefs[i].at.Waiting? { WaitingKeepsBefore(supply, s, i); }
    else { WorkingKeepsBefore(supply, s, i); }
  }

  lemma WholesalerKeeps(supply: seq<Line>, s: State)
    requires Inv(supply, s) && Enabled(supply, s, Wholesaler)
    ensures Inv(supply, Exec(supply, s, Wholesaler))
  {
    hide Inv, Enabled, Exec;
    if s.finished { WholesalerLeaves(supply, s); }
    else if s.wholesaler.Finishing? { WholesalerEnds(supply, s); }
    else { WholesalerKeepsBefore(supply, s); }
  }

  lemma {:induction false} RunInv(supply: seq<Line>, states: seq<State>, n: nat)
    requires ValidSupply(supply) && Run(supply, states) && n < |states|
    ensures Inv(supply, states[n])
  {
    hide Inv, Enabled, Exec;
    if n == 0 {
      InitInv(supply);
    } else {
      RunInv(supply, states, n - 1);
      assert Follows(supply, states[n - 1], states[n]);
      var p :| Enabled(supply, states[n - 1], p) && states[n] == Exec(supply, states[n - 1], p);
      StepKeeps(supply, states[n - 1], p);
    }
  }

  lemma ReachableInv(supply: seq<Line>, s: State)
    requires ValidSupply(supply) && Reachable(supply, s)
    ensures Inv(supply, s)
  {
    hide Inv, Follows;
    var states :| Run(supply, states) && states[|states| - 1] == s;
    RunInv(supply, states, |states| - 1);
  }

  // ---------------------------------------------------------------- what it guarantees

  /** Before the end a delivered pair wakes the chef who lacks exactly that pair, and no other. */
  lemma OnlyTheRightChef(supply: seq<Line>, s: State, i: nat)
    requires ValidSupply(supply) && Reachable(supply, s) && !s.finished
    requires Enabled(supply, s, ChefNo(i)) && s.chefs[i].at.Waiting?
    ensures s.wholesaler.Selling? && GetMask(i) == LineMask(supply[s.sent]) == s.store && IsFor(supply[s.sent], i)
  {
    hide IsFor, LineMask, Total, Reachable, Posted, Taken, Targets, GetMask;
    ReachableInv(supply, s);
    WaitingIsOffered(supply, s, i);
    OnlyOwnPair(i, Target(supply[s.sent]));
    TargetInLetters(supply[s.sent], i);
  }

  lemma WaitingIsOffered(supply: seq<Line>, s: State, i: nat)
    requires Inv(supply, s) && !s.finished && Enabled(supply, s, ChefNo(i)) && s.chefs[i].at.Waiting?
    ensures s.wholesaler.Selling? && Offered(supply, s)
  {
    hide LineMask, Total, Target, Posted, Taken, Targets;
  }

  /** The chef who empties the store finds its own pair there, and is the only chef at work. */
  lemma TakesItsOwnPair(supply: seq<Line>, s: State, i: nat)
    requires ValidSupply(supply) && Reachable(supply, s) && i < CHEF_NUMBER <= |s.chefs| && s.chefs[i].at.Taking?
    ensures s.store == GetMask(i) && forall j :: 0 <= j < |s.chefs| && j != i ==> AtRest(s.chefs[j])
    ensures s.sent < |supply| && IsFor(supply[s.sent], i)
  {
    hide IsFor, LineMask, Total, Reachable, Posted, Taken, Targets, GetMask;
    ReachableInv(supply, s);
    TargetInLetters(supply[s.sent], i);
  }

  /** The deliveries taken so far are the first ones of the supply, in order, and at most one is unpaid. */
  lemma InStep(supply: seq<Line>, s: State)
    requires ValidSupply(supply) && Reachable(supply, s)
    ensures s.sent <= |s.log| <= |supply| && s.log == Targets(supply)[..|s.log|]
    ensures |s.log| <= s.sent + 1
    ensures forall k :: 0 <= k < |s.log| ==> s.log[k] < CHEF_NUMBER && IsFor(supply[k], s.log[k])
  {
    hide IsFor, Targets, Reachable, ValidLine;
    TakenInOrder(supply, s);
    TargetsInLetters(supply);
  }

  lemma TakenInOrder(supply: seq<Line>, s: State)
    requires ValidSupply(supply) && Reachable(supply, s)
    ensures s.sent <= |s.log| <= |supply| && s.log == Targets(supply)[..|s.log|] && |s.log| <= s.sent + 1
  {
    hide LineMask, Total, Reachable, Posted, Taken, Target, First, Second;
    ReachableInv(supply, s);
  }

  /** A chef that has gone has posted every semaphore three times, and took at most one unit itself. */
  lemma NetOfTheGone(r: nat, chef: Chef)
    requires r < INGREDIENT_NUMBER
    ensures chef.at.Gone? ==> Net(r)(chef) >= 2
    ensures chef.at.Waiting? ==> Net(r)(chef) == 0
  {
    assert Posts(6, r) == 3 by {
      assert Posts(2, r) == (if Uses(0, r) then 1 else 0) + if Uses(1, r) then 1 else 0;
      assert Posts(4, r) == Posts(2, r) + (if Uses(2, r) then 1 else 0) + if Uses(3, r) then 1 else 0;
    }
  }

  /** Once the wholesaler has left, a waiting chef can take its pair unless somebody else can move. */
  lemma WaitersAreReleased(supply: seq<Line>, s: State, i: nat)
    requires Inv(supply, s) && s.finished && s.wholesaler.Left? && i < CHEF_NUMBER && s.chefs[i].at.Waiting?
    requires forall j :: 0 <= j < CHEF_NUMBER ==> s.chefs[j].at.Waiting? || s.chefs[j].at.Gone?
    ensures exists p :: Enabled(supply, s, p)
  {
    hide LineMask, Total, Target, Targets, Posts;
    forall r | 0 <= r < INGREDIENT_NUMBER
      ensures forall j :: 0 <= j < CHEF_NUMBER && s.chefs[j].at.Gone? ==> s.sems[r] >= 2
      ensures Uses(Target(supply[|supply| - 1]), r) ==> s.sems[r] >= 1
    {
      forall j | 0 <= j < CHEF_NUMBER ensures Net(r)(s.chefs[j]) >= if s.chefs[j].at.Gone? then 2 else 0 {
        NetOfTheGone(r, s.chefs[j]);
      }
      assert s.sems[r] >= Floor(supply, s, r);
      forall j | 0 <= j < CHEF_NUMBER && s.chefs[j].at.Gone? ensures s.sems[r] >= 2 {
        TotalCovers(Net(r), s.chefs, j, j);
      }
      TotalAtLeast(Net(r), s.chefs, 0);
    }
    if j :| 0 <= j < CHEF_NUMBER && s.chefs[j].at.Gone? {
      assert s.sems[First(i)] >= 2 && s.sems[Second(i)] >= 2;
      assert Enabled(supply, s, ChefNo(i));
    } else {
      assert Enabled(supply, s, ChefNo(Target(supply[|supply| - 1])));
    }
  }

  /** No reachable state in which somebody has not finished is stuck. */
  lemma DeadlockFreedom(supply: seq<Line>, s: State)
    requires ValidSupply(supply) && Reachable(supply, s)
    ensures AllHome(s) <==> !exists p :: Enabled(supply, s, p)
  {
    hide LineMask, Total, Reachable, Posts;
    ReachableInv(supply, s);
    if !AllHome(s) && !Enabled(supply, s, Wholesaler) {
      if i :| 0 <= i < CHEF_NUMBER && !s.chefs[i].at.Waiting? && !s.chefs[i].at.Gone? {
        assert Enabled(supply, s, ChefNo(i));
      } else if s.finished {
        var i :| 0 <= i < CHEF_NUMBER && !s.chefs[i].at.Gone?;
        WaitersAreReleased(supply, s, i);
      } else {
        assert Offered(supply, s);
        assert Enabled(supply, s, ChefNo(Target(supply[s.sent])));
      }
    }
  }

  // ---------------------------------------------------------------- every run ends

  /** How many steps a chef has ahead of it at most, not counting deliveries still to come. */
  function ChefRank(): Chef -> int {
    (chef: Chef) =>
      match chef.at
      case Checking => 11
      case Waiting => 10
      case Rechecking => 9
      case Taking => 8
      case Preparing => 7
      case Posting(k) => 6 - k
      case Gone => 0
  }

  function Rank(supply: seq<Line>, s: State): int {
    20 * (|supply| - s.sent) - 5 * s.dessert + Total(ChefRank(), s.chefs)
    + match s.wholesaler
      case Delivering => 2
      case Signalling => 1
      case Selling => 0
      case Finishing => 2
      case Farewell => 1
      case Left => 0
  }

  lemma StepDescends(supply: seq<Line>, s: State, p: Process)
    requires Inv(supply, s) && Enabled(supply, s, p)
    ensures Rank(supply, Exec(supply, s, p)) < Rank(supply, s)
  {
    hide LineMask, Total, Posted, Taken, Target, Targets, First, Second, Posts;
    if p.ChefNo? {
      TotalUpdate(ChefRank(), s.chefs, p.i, Exec(supply, s, p).chefs[p.i]);
    }
  }

  lemma RankBounds(supply: seq<Line>, s: State)
    requires Inv(supply, s)
    ensures -5 <= Rank(supply, s)
  {
    hide LineMask, Total, Posted, Taken, Target, Targets, First, Second, Posts;
    TotalAtLeast(ChefRank(), s.chefs, 0);
  }

  lemma RankAtFirst(supply: seq<Line>)
    ensures Rank(supply, Init()) == 20 * |supply| + 68
  {
    TotalAtMost(ChefRank(), Init().chefs, 11);
  }

  lemma {:induction false} RunDescends(supply: seq<Line>, states: seq<State>, n: nat)
    requires ValidSupply(supply) && Run(supply, states) && n < |states|
    ensures Rank(supply, states[n]) + n <= 20 * |supply| + 68
  {
    hide Inv, Enabled, Exec, Rank;
    RankAtFirst(supply);
    if n > 0 {
      RunDescends(supply, states, n - 1);
      RunInv(supply, states, n - 1);
      assert Follows(supply, states[n - 1], states[n]);
      var p :| Enabled(supply, states[n - 1], p) && states[n] == Exec(supply, states[n - 1], p);
      StepDescends(supply, states[n - 1], p);
    }
  }

  /** Everybody has exited, every dessert has been obtained, and each delivery was taken by the chef it was for. */
  predicate Completed(supply: seq<Line>, s: State) {
    && AllHome(s) && s.sent == |supply| == |s.log|
    && forall k :: 0 <= k < |supply| ==> s.log[k] < CHEF_NUMBER && IsFor(supply[k], s.log[k])
  }

  lemma HomeIsCompleted(supply: seq<Line>, s: State)
    requires ValidSupply(supply) && Reachable(supply, s) && AllHome(s)
    ensures Completed(supply, s) && s.log == Targets(supply)
  {
    InStep(supply, s);
    hide IsFor, Enabled, Target, Targets, LineMask, Total, Posts, First, Second, Reachable;
    ReachableInv(supply, s);
  }

  /**
   Whatever the scheduler does, a run has a bounded number of steps; and where it can go no further every
   chef has exited, every dessert has been obtained and each delivery was taken by the chef it was for.
   */
  lemma EveryRunCompletes(supply: seq<Line>, states: seq<State>)
    requires ValidSupply(supply) && Run(supply, states)
    ensures |states| <= 20 * |supply| + 74
    ensures var s := states[|states| - 1]; (!exists p :: Enabled(supply, s, p)) ==> Completed(supply, s)
  {
    hide Enabled, Follows, Rank, Completed, AllHome, Inv;
    var s := states[|states| - 1];
    assert Reachable(supply, s);
    RunDescends(supply, states, |states| - 1);
    ReachableInv(supply, s);
    RankBounds(supply, s);
    DeadlockFreedom(supply, s);
    if AllHome(s) { HomeIsCompleted(supply, s); }
  }
}
