/** The chefs' street as the program keeps it; every method is one step of one thread. */
module DessertStreet {
  import opened Desserts
  import opened DessertProtocol

  class Street {
    const supply: seq<Line>
    const sems: array<int>
    const chefs: array<Chef>
    var dessert: int
    var finished: bool
    var store: bv8
    var wholesaler: WholesalerAt
    var sent: nat
    var log: seq<nat>

    /** The state the protocol's properties speak about. */
    ghost function View(): State
      reads this, sems, chefs
    {
      State(sems[..], dessert, finished, store, chefs[..], wholesaler, sent, log)
    }

    constructor (supply: seq<Line>)
      ensures fresh(sems) && fresh(chefs) && this.supply == supply && View() == Init()
    {
      this.supply := supply;
      sems := new int[INGREDIENT_NUMBER](_ => 0);
      chefs := new Chef[CHEF_NUMBER](i requires 0 <= i => Chef(i, Checking));
      dessert, finished, store := 0, false, EMPTY;
      wholesaler, sent, log := Delivering, 0, [];
    }

    /** Posts both semaphores of the pair a mask stands for. */
    method SemPost(mask: bv8, ghost i: nat)
      requires i < CHEF_NUMBER && mask == GetMask(i) && sems.Length == INGREDIENT_NUMBER
      modifies sems
      ensures sems[..] == Posted(old(sems[..]), i)
    {
      hide GetMask, Held;
      PairOfMask(i);
      var index := SemOfIngredients(mask);
      assert index[0] == First(i) && index[1] == Second(i);
      sems[index[0]] := sems[index[0]] + 1;
      sems[index[1]] := sems[index[1]] + 1;
    }

    /** Takes one unit from both semaphores of the pair, which must be there. */
    method SemWait(mask: bv8, ghost i: nat)
      requires i < CHEF_NUMBER && mask == GetMask(i) && sems.Length == INGREDIENT_NUMBER
      modifies sems
      ensures sems[..] == Taken(old(sems[..]), i)
    {
      hide GetMask, Held;
      PairOfMask(i);
      var index := SemOfIngredients(mask);
      assert index[0] == First(i) && index[1] == Second(i);
      sems[index[0]] := sems[index[0]] - 1;
      sems[index[1]] := sems[index[1]] - 1;
    }

    method WholesalerStep()
      requires Enabled(supply, View(), Wholesaler)
      modifies this, sems
      ensures View() == Exec(supply, old(View()), Wholesaler)
    {
      hide GetMask, LineMask, Target, Posted;
      match wholesaler
      case Delivering =>
        store := LineMask(supply[sent]);
        wholesaler := Signalling;
      case Signalling =>
        SemPost(LineMask(supply[sent]), Target(supply[sent]));
        wholesaler := Selling;
      case Selling =>
        dessert := dessert - 1;
        sent := sent + 1;
        wholesaler := if sent < |supply| then Delivering else Finishing;
      case Finishing =>
        finished := true;
        wholesaler := Farewell;
      case Farewell =>
        SemPost(LineMask(supply[|supply| - 1]), Target(supply[|supply| - 1]));
        wholesaler := Left;
    }

    method ChefStep(i: nat)
      requires Enabled(supply, View(), ChefNo(i))
      modifies this, sems, chefs
      ensures View() == Exec(supply, old(View()), ChefNo(i))
    {
      hide GetMask, LineMask, Target, Posted, Taken, First, Second;
      match chefs[i].at
      case Checking => chefs[i] := Chef(i, if finished then Posting(0) else Waiting);
      case Waiting =>
        SemWait(GetMask(i), i);
        chefs[i] := Chef(i, Rechecking);
      case Rechecking => chefs[i] := Chef(i, if finished then Posting(0) else Taking);
      case Taking =>
        store := EMPTY;
        log := log + [i];
        chefs[i] := Chef(i, Preparing);
      case Preparing =>
        dessert := dessert + 1;
        chefs[i] := Chef(i, Checking);
      case Posting(k) =>
        SemPost(GetMask(k), k);
        chefs[i] := Chef(i, if k + 1 < CHEF_NUMBER then Posting(k + 1) else Gone);
    }

    /** Any enabled step follows the protocol and keeps its invariant. */
    method Act(p: Process)
      requires Inv(supply, View()) && Enabled(supply, View(), p)
      modifies this, sems, chefs
      ensures Inv(supply, View()) && View() == Exec(supply, old(View()), p)
    {
      hide Inv, Exec;
      StepKeeps(supply, View(), p);
      match p
      case Wholesaler => WholesalerStep();
      case ChefNo(i) => ChefStep(i);
    }
  }
}
