/**
 The mess hall cannot live on without getting anywhere: from wherever a run has come to, everybody can still
 get home. Steps that lower the rank are taken as long as there are any. When only cooks that search in vain can
 move, the rota is rolled on until somebody takes a plate or departs.
 */
module MessHallCompletion {
  import opened Rooms
  import opened Tally
  import opened MessHall
  import opened MessHallInvariant
  import opened MessHallSteps
  import opened MessHallTheorems
  import opened MessHallProgress

  /** A sequence of steps. */
  ghost predicate Path(c: Config, states: seq<State>) {
    states != [] && forall k :: 0 < k < |states| ==> Follows(c, states[k - 1], states[k])
  }

  /** Some sequence of steps leads from s to t. */
  ghost predicate Leads(c: Config, s: State, t: State) {
    exists states :: Path(c, states) && states[0] == s && states[|states| - 1] == t
  }

  lemma LeadsNowhere(c: Config, s: State)
    ensures Leads(c, s, s)
  {
    assert Path(c, [s]);
  }

  /** One more step of a cook, in a state that keeps the invariant. */
  lemma CookGoes(c: Config, o: State, s: State, i: nat) returns (t: State)
    requires c.Valid() && Inv(c, s) && Leads(c, o, s) && Enabled(c, s, CookNo(i))
    ensures t == Exec(c, s, CookNo(i)) && Inv(c, t) && Leads(c, o, t) && i < |s.cooks| == |t.cooks|
    ensures Rank(c, t) == Rank(c, s) + CookSteps(t.cooks[i].at) - CookSteps(s.cooks[i].at) + 8 * (t.plates - s.plates)
  {
    t := Goes(c, o, s, CookNo(i));
    CookSpares(c, s, i);
    hide Total, Exec, Enabled, Inv, Leads, Config.Quota, Config.Valid, CookSteps;
    TotalUpdate(CookRank(), s.cooks, i, t.cooks[i]);
  }

  lemma Goes(c: Config, o: State, s: State, p: Process) returns (t: State)
    requires c.Valid() && Inv(c, s) && Leads(c, o, s) && Enabled(c, s, p)
    ensures t == Exec(c, s, p) && Inv(c, t) && Leads(c, o, t)
  {
    hide Exec, Enabled, Inv, Config.Valid;
    t := Exec(c, s, p);
    StepKeeps(c, s, p);
    var states :| Path(c, states) && states[0] == o && states[|states| - 1] == s;
    var longer := states + [t];
    forall k | 0 < k < |longer| ensures Follows(c, longer[k - 1], longer[k]) {
      if k < |states| { assert Follows(c, states[k - 1], states[k]); }
    }
    assert Path(c, longer);
  }

  // ---------------------------------------------------------------- what a single cook does in two steps

  /** Cook i, having searched in vain for f, gives its token back. */
  lemma GivesUp(c: Config, o: State, s: State, i: nat, f: Kind) returns (t: State)
    requires c.Valid() && Inv(c, s) && Leads(c, o, s) && i < |s.cooks| && s.cooks[i].at == Searching(f)
    requires f !in s.kitchen
    ensures Inv(c, t) && Leads(c, o, t) && Shaped(c, s) && Rank(c, t) == Rank(c, s) + 3
    ensures t == s.(cooks := s.cooks[i := Cook(Looping, s.cooks[i].left)], kFull := s.kFull[f := s.kFull[f] + 1])
  {
    hide Total, Next, Leads, Rank, Config.Valid, Config.Quota, KindInv, KitchenInv, PermitsInv, RotaInv,
      DepartureInv, CooksInv;
    t := CookGoes(c, o, s, i);
    t := CookGoes(c, o, t, i);
    assert t.cooks == s.cooks[i := Cook(Looping, s.cooks[i].left)];
  }

  /** Cook i, with plates still to leave the kitchen, takes the kind that the rota shows, or departs. */
  lemma PicksNext(c: Config, o: State, s: State, i: nat, f: Kind) returns (t: State)
    requires c.Valid() && Inv(c, s) && Leads(c, o, s) && i < |s.cooks| && s.cooks[i].at.Looping? && s.plates > 0
    requires f == NextKind(s.rota)
    ensures Inv(c, t) && Leads(c, o, t) && |s.cooks[i].left| == FOOD_KIND
    ensures s.cooks[i].left[f] == 0 ==> Rank(c, t) == Rank(c, s) - 5
    ensures s.cooks[i].left[f] != 0 ==>
      && t == s.(cooks := s.cooks[i := Cook(Waiting(f), s.cooks[i].left)], rota := f + 1)
      && Rank(c, t) == Rank(c, s) - 2
  {
    hide Total, Next, Leads, Rank, Config.Valid, Config.Quota, KindInv, KitchenInv, PermitsInv, RotaInv,
      DepartureInv, CooksInv;
    t := CookGoes(c, o, s, i);
    t := CookGoes(c, o, t, i);
    if s.cooks[i].left[f] != 0 {
      assert t.cooks == s.cooks[i := Cook(Waiting(f), s.cooks[i].left)];
    }
  }

  /** Cook i gets a token for the kind it waits for. */
  lemma TakesToken(c: Config, o: State, s: State, i: nat, f: Kind) returns (t: State)
    requires c.Valid() && Inv(c, s) && Leads(c, o, s) && i < |s.cooks| && s.cooks[i].at == Waiting(f)
    requires Shaped(c, s) && s.kFull[f] > 0
    ensures Inv(c, t) && Leads(c, o, t) && Rank(c, t) == Rank(c, s) - 1
    ensures t == s.(cooks := s.cooks[i := Cook(Searching(f), s.cooks[i].left)], kFull := s.kFull[f := s.kFull[f] - 1])
  {
    hide Total, Next, Leads, Rank, Config.Valid, Config.Quota, KindInv, KitchenInv, PermitsInv, RotaInv,
      DepartureInv, CooksInv;
    t := CookGoes(c, o, s, i);
  }

  /** Cook i finds a plate of the kind it searches for. */
  lemma FindsPlate(c: Config, o: State, s: State, i: nat, f: Kind) returns (t: State)
    requires c.Valid() && Inv(c, s) && Leads(c, o, s) && i < |s.cooks| && s.cooks[i].at == Searching(f)
    requires f in s.kitchen
    ensures Inv(c, t) && Leads(c, o, t) && Rank(c, t) == Rank(c, s) - 1
  {
    hide Total, Next, Leads, Rank, Config.Valid, Config.Quota, KindInv, KitchenInv, PermitsInv, RotaInv,
      DepartureInv, CooksInv;
    t := CookGoes(c, o, s, i);
  }

  // ---------------------------------------------------------------- rolling the rota on

  /** The cook is home, blocked, or about to search for a kind that is not there. */
  predicate Resting(kitchen: seq<int>, k: Cook) {
    match k.at
    case Waiting(_) => true
    case Queuing(_) => true
    case Searching(f) => f !in kitchen
    case CookHome => true
    case _ => false
  }

  /** Cook r is about to take the next kind, cook h has gone home, and all others rest. */
  ghost predicate Rolling(c: Config, s: State, r: nat, h: nat) {
    && Inv(c, s) && r < |s.cooks| && h < |s.cooks| && s.cooks[h].at.CookHome? && s.cooks[r].at.Looping?
    && !s.supplier.Signalling? && s.plates > 0
    && forall k :: 0 <= k < |s.cooks| && k != r ==> Resting(s.kitchen, s.cooks[k])
  }

  /** A kind that lies in the kitchen has a token when nobody holds one. */
  lemma TokenThere(c: Config, s: State, f: Kind)
    requires c.Valid() && Inv(c, s) && !s.supplier.Signalling? && f in s.kitchen
    requires forall k :: 0 <= k < |s.cooks| ==> s.cooks[k].at != Searching(f) && s.cooks[k].at != Returning(f)
    ensures Shaped(c, s) && s.kFull[f] > 0
  {
    hide Total, KitchenInv, PermitsInv, RotaInv, DepartureInv, CooksInv, RoomsInv, Config.Valid, Config.Quota;
    assert KindInv(c, s, f);
    TotalAtMost(Holding(f), s.cooks, 0);
    TotalAtLeast(Released(f), s.cooks, 0);
    assert f in multiset(s.kitchen);
  }

  /** With a cook at home there is a surplus token of every kind; when it is not free, somebody holds it. */
  lemma TokenHeld(c: Config, s: State, h: nat, f: Kind) returns (k: nat)
    requires c.Valid() && Inv(c, s) && !s.supplier.Signalling? && h < |s.cooks| && s.cooks[h].at.CookHome?
    requires Shaped(c, s) && s.kFull[f] <= 0
    ensures s.kFull[f] == 0 && k < |s.cooks| && (s.cooks[k].at == Searching(f) || s.cooks[k].at == Returning(f))
  {
    hide Total, KitchenInv, PermitsInv, RotaInv, DepartureInv, CooksInv, RoomsInv, Config.Valid, Config.Quota;
    assert KindInv(c, s, f);
    TotalCovers(Released(f), s.cooks, h, h);
    k := TotalWitness(Holding(f), s.cooks);
  }

  /** How many kinds the rota shows before kind j. */
  function Picks(rota: nat, j: Kind): nat {
    (j + FOOD_KIND - NextKind(rota)) % FOOD_KIND
  }

  /** Cook r takes its turn: somebody gets a plate or departs, or the turn passes and the rota has moved on. */
  lemma TakesTurn(c: Config, o: State, s: State, r: nat, h: nat) returns (t: State, r': nat)
    requires c.Valid() && Leads(c, o, s) && Rolling(c, s, r, h)
    ensures Inv(c, t) && Leads(c, o, t)
    ensures Rank(c, t) <= Rank(c, s) - 4
      || (NextKind(s.rota) !in s.kitchen && Rolling(c, t, r', h) && Rank(c, t) == Rank(c, s)
          && t.kitchen == s.kitchen && t.rota == NextKind(s.rota) + 1)
  {
    hide Inv, Rank, Leads, Config.Valid;
    var f := NextKind(s.rota);
    r' := r;
    t := PicksNext(c, o, s, r, f);
    if s.cooks[r].left[f] != 0 {
      if f in s.kitchen {
        TokenThere(c, t, f);
        t := TakesToken(c, o, t, r, f);
        t := FindsPlate(c, o, t, r, f);
      } else {
        ShapedInv(c, t);
        if t.kFull[f] <= 0 {
          r' := TokenHeld(c, t, h, f);
          t := GivesUp(c, o, t, r', f);
          t := TakesToken(c, o, t, r, f);
        } else {
          t := TakesToken(c, o, t, r, f);
          t := GivesUp(c, o, t, r, f);
        }
      }
    }
  }

  lemma ShapedInv(c: Config, s: State)
    requires Inv(c, s)
    ensures Shaped(c, s)
  {
  }

  /** While a kind lies in the kitchen, three turns at most bring the end nearer. */
  lemma {:induction false} RollsOn(c: Config, o: State, s: State, r: nat, h: nat, j: Kind) returns (t: State)
    requires c.Valid() && Leads(c, o, s) && Rolling(c, s, r, h) && j in s.kitchen
    ensures Inv(c, t) && Leads(c, o, t) && Rank(c, t) <= Rank(c, s) - 4
    decreases Picks(s.rota, j)
  {
    hide Inv, Rank, Leads, Rolling, Config.Valid;
    var r';
    t, r' := TakesTurn(c, o, s, r, h);
    if Rank(c, t) > Rank(c, s) - 4 {
      t := RollsOn(c, o, t, r', h, j);
    }
  }

  // ---------------------------------------------------------------- when only vain searches are enabled

  /** The supplier has brought everything or finds no free slot. */
  predicate SupplierRests(s: State) {
    s.supplier.SupplierHome? || (s.supplier.AwaitingSlot? && s.kEmpty <= 0)
  }

  /** Nothing but searches in vain can be done. */
  ghost predicate Spinning(c: Config, s: State) {
    forall p :: Enabled(c, s, p) ==> Fruitless(s, p)
  }

  lemma SpinningRests(c: Config, s: State)
    requires c.Valid() && Inv(c, s) && Spinning(c, s)
    ensures SupplierRests(s) && forall k :: 0 <= k < |s.cooks| ==> Resting(s.kitchen, s.cooks[k])
  {
    hide Total, Next, KindInv, KitchenInv, PermitsInv, RotaInv, DepartureInv, CooksInv, Config.Valid, Config.Quota;
    assert !Enabled(c, s, Supplier);
    forall k | 0 <= k < |s.cooks| ensures Resting(s.kitchen, s.cooks[k]) {
      assert Enabled(c, s, CookNo(k)) ==> Fruitless(s, CookNo(k));
      match s.cooks[k].at
      case Waiting(_) =>
      case Queuing(_) =>
      case Searching(_) =>
      case CookHome =>
      case _ =>
    }
  }

  /** With plates still to leave it and a supplier that rests, the kitchen is not empty. */
  lemma PlateThere(c: Config, s: State) returns (j: Kind)
    requires c.Valid() && Inv(c, s) && SupplierRests(s) && s.plates > 0
    requires forall k :: 0 <= k < |s.cooks| ==> Resting(s.kitchen, s.cooks[k])
    ensures j in s.kitchen
  {
    hide Total, PermitsInv, RotaInv, DepartureInv, CooksInv, Config.Quota, Config.Valid;
    if s.supplier.SupplierHome? {
      FetchedSplits(c.Quota(), s.cooks);
      assert KindInv(c, s, 0) && KindInv(c, s, 1) && KindInv(c, s, 2);
      SupplyBound(c, s, 0);
      SupplyBound(c, s, 1);
      SupplyBound(c, s, 2);
    } else {
      TotalAtMost(Freeing(), s.cooks, 0);
      RoomCounts(s.kitchen);
    }
    assert Plates(s.kitchen, 0) + Plates(s.kitchen, 1) + Plates(s.kitchen, 2) > 0;
    j := if Plates(s.kitchen, 0) > 0 then 0 else if Plates(s.kitchen, 1) > 0 then 1 else 2;
    assert j in multiset(s.kitchen);
  }

  /** A search in vain, and what follows from it, brings the end nearer all the same. */
  lemma SpinsOn(c: Config, s: State, i: nat, h: nat, f: Kind) returns (t: State)
    requires c.Valid() && Inv(c, s) && Spinning(c, s) && i < |s.cooks| && s.cooks[i].at == Searching(f)
    requires h < |s.cooks| && s.cooks[h].at.CookHome?
    ensures Inv(c, t) && Leads(c, s, t) && Rank(c, t) < Rank(c, s)
  {
    SpinningRests(c, s);
    hide Inv, Rank, Leads, Spinning, Config.Valid;
    LeadsNowhere(c, s);
    t := GivesUp(c, s, s, i, f);
    if s.plates > 0 {
      var j := PlateThere(c, s);
      t := RollsOn(c, s, t, i, h, j);
    } else {
      PlatesNonNegative(c, s);
      t := GoesHome(c, s, t, i);
    }
  }

  /** A cook that finds nothing left to fetch departs. */
  lemma GoesHome(c: Config, o: State, s: State, i: nat) returns (t: State)
    requires c.Valid() && Inv(c, s) && Leads(c, o, s) && i < |s.cooks| && s.cooks[i].at.Looping? && s.plates == 0
    ensures Inv(c, t) && Leads(c, o, t) && Rank(c, t) == Rank(c, s) - 5
  {
    hide Total, Next, Leads, Rank, Config.Valid, Config.Quota, KindInv, KitchenInv, PermitsInv, RotaInv,
      DepartureInv, CooksInv;
    t := CookGoes(c, o, s, i);
  }

  /** As long as somebody is not home, some steps bring the end nearer. */
  lemma ComesNearer(c: Config, s: State) returns (t: State)
    requires c.Valid() && Inv(c, s) && !AllHome(s)
    ensures Inv(c, t) && Leads(c, s, t) && Rank(c, t) < Rank(c, s)
  {
    hide Inv, Enabled, Rank, Leads, AllHome, Config.Valid;
    NeverStuck(c, s);
    if exists p :: Enabled(c, s, p) && !Fruitless(s, p) {
      var p :| Enabled(c, s, p) && !Fruitless(s, p);
      LeadsNowhere(c, s);
      t := Goes(c, s, s, p);
      StepDescends(c, s, p);
    } else {
      var p :| Enabled(c, s, p);
      FruitlessNeedsDeparture(c, s, p.i);
      var h :| 0 <= h < |s.cooks| && (s.cooks[h].at.Departing? || s.cooks[h].at.CookHome?);
      SpinningRests(c, s);
      t := SpinsOn(c, s, p.i, h, s.cooks[p.i].at.food);
    }
  }

  lemma LeadsOn(c: Config, s: State, t: State, u: State)
    requires Leads(c, s, t) && Leads(c, t, u)
    ensures Leads(c, s, u)
  {
    var a :| Path(c, a) && a[0] == s && a[|a| - 1] == t;
    var b :| Path(c, b) && b[0] == t && b[|b| - 1] == u;
    assert Path(c, Joined(c, a, b));
  }

  /** Two sequences of steps, the second of which goes on where the first ends. */
  ghost function Joined(c: Config, a: seq<State>, b: seq<State>): (r: seq<State>)
    requires Path(c, a) && Path(c, b) && a[|a| - 1] == b[0]
    ensures Path(c, r) && a <= r && |r| == |a| + |b| - 1 && r[|r| - 1] == b[|b| - 1]
  {
    JoinedIsPath(c, a, b);
    a + b[1..]
  }

  lemma JoinedIsPath(c: Config, a: seq<State>, b: seq<State>)
    requires Path(c, a) && Path(c, b) && a[|a| - 1] == b[0]
    ensures Path(c, a + b[1..])
  {
    hide Follows;
    var r := a + b[1..];
    forall k | 0 < k < |r| ensures Follows(c, r[k - 1], r[k]) {
      if k < |a| {
        assert Follows(c, a[k - 1], a[k]);
      } else {
        assert Follows(c, b[k - |a|], b[k - |a| + 1]);
      }
    }
  }

  /** Everybody can get home. */
  lemma {:induction false} CanComplete(c: Config, s: State) returns (t: State)
    requires c.Valid() && Inv(c, s)
    ensures Leads(c, s, t) && AllHome(t)
    decreases Rank(c, s)
  {
    hide Inv, Rank, Leads, AllHome, Config.Valid;
    LeadsNowhere(c, s);
    t := s;
    if !AllHome(s) {
      RankNonNegative(c, s);
      var nearer := ComesNearer(c, s);
      t := CanComplete(c, nearer);
      LeadsOn(c, s, nearer, t);
    }
  }

  /** Every run, however far it has come and whatever was scheduled, can be continued until everybody is home. */
  lemma EveryRunCanComplete(c: Config, states: seq<State>) returns (longer: seq<State>)
    requires c.Valid() && Run(c, states)
    ensures Run(c, longer) && states <= longer && AllHome(longer[|longer| - 1])
  {
    hide Inv, AllHome, Config.Valid, Follows;
    RunInv(c, states);
    var s := states[|states| - 1];
    var t := CanComplete(c, s);
    var more :| Path(c, more) && more[0] == s && more[|more| - 1] == t;
    longer := Joined(c, states, more);
  }
}
