/** Florists, clients, and which florist a client's order goes to. */
module Florists {
  const NAME_LENGTH := 32

  datatype Point = Point(x: real, y: real)

  datatype Client = Client(location: Point, flower: string)

  datatype Florist = Florist(location: Point, flowers: seq<string>)

  function Abs(x: real): real { if x < 0.0 then -x else x }

  function Max(a: real, b: real): real { if a > b then a else b }

  function Chebyshev(p: Point, q: Point): real { Max(Abs(p.x - q.x), Abs(p.y - q.y)) }

  /** The larger of the coordinate distances is a metric. */
  lemma ChebyshevIsAMetric(p: Point, q: Point, r: Point)
    ensures Chebyshev(p, q) >= 0.0 && (Chebyshev(p, q) == 0.0 <==> p == q)
    ensures Chebyshev(p, q) == Chebyshev(q, p)
    ensures Chebyshev(p, r) <= Chebyshev(p, q) + Chebyshev(q, r)
  {
  }

  /** q lies in the square of half-width r around p, its border included or not. */
  predicate InSquare(p: Point, q: Point, r: real, border: bool) {
    if border then -r <= p.x - q.x <= r && -r <= p.y - q.y <= r
    else -r < p.x - q.x < r && -r < p.y - q.y < r
  }

  /** Which metric it is: the points within a distance are a square. */
  lemma ChebyshevIsSquare(p: Point, q: Point, r: real)
    ensures Chebyshev(p, q) <= r <==> InSquare(p, q, r, true)
    ensures Chebyshev(p, q) < r <==> InSquare(p, q, r, false)
  {
  }

  /** Names count up to NAME_LENGTH characters. */
  predicate SameName(a: string, b: string) {
    (if |a| <= NAME_LENGTH then a else a[..NAME_LENGTH]) == (if |b| <= NAME_LENGTH then b else b[..NAME_LENGTH])
  }

  /** What that compares: the lengths, up to that many characters, and every character before. */
  lemma SameNameByCharacter(a: string, b: string)
    ensures SameName(a, b) <==>
      && (|a| == |b| || (|a| >= 32 && |b| >= 32))
      && forall k :: 0 <= k < |a| && k < |b| && k < 32 ==> a[k] == b[k]
  {
  }

  predicate Delivers(florist: Florist, flower: string) {
    exists i :: 0 <= i < |florist.flowers| && SameName(florist.flowers[i], flower)
  }

  method FloristDelivers(florist: Florist, flower: string) returns (delivers: bool)
    ensures delivers <==> Delivers(florist, flower)
  {
    delivers := false;
    for i := 0 to |florist.flowers|
      invariant delivers <==> exists k :: 0 <= k < i && SameName(florist.flowers[k], flower)
    {
      delivers := delivers || SameName(florist.flowers[i], flower);
    }
  }

  /** Florist i can serve the client, at a distance of at most `limit`. */
  predicate Serves(fs: seq<Florist>, client: Client, limit: real, i: int) {
    0 <= i < |fs| && Delivers(fs[i], client.flower) && Distance(fs, client, i) <= limit
  }

  function Distance(fs: seq<Florist>, client: Client, i: int): real
    requires 0 <= i < |fs|
  {
    Chebyshev(fs[i].location, client.location)
  }

  /** r is at minimum distance among those of the first n florists who can serve, and the last one there. */
  predicate Nearest(fs: seq<Florist>, client: Client, limit: real, n: int, r: int) {
    && Serves(fs, client, limit, r) && r < n
    && forall i :: 0 <= i < n && Serves(fs, client, limit, i) ==>
         && Distance(fs, client, r) <= Distance(fs, client, i)
         && (i > r ==> Distance(fs, client, r) < Distance(fs, client, i))
  }

  /**
   The choice in coordinates: every square around the client that has a seller in it, and is no wider than the limit,
   has r in it, and when that seller comes after r it has r in its interior.
   */
  ghost predicate NearestInSquares(fs: seq<Florist>, client: Client, limit: real, r: int) {
    && 0 <= r < |fs| && Delivers(fs[r], client.flower) && InSquare(fs[r].location, client.location, limit, true)
    && forall i, d: real ::
         0 <= i < |fs| && Delivers(fs[i], client.flower) && d <= limit
         && InSquare(fs[i].location, client.location, d, true) ==>
           InSquare(fs[r].location, client.location, d, i <= r)
  }

  /** The nearest florist is the one the squares single out. */
  lemma NearestByCoordinates(fs: seq<Florist>, client: Client, limit: real, r: int)
    ensures Nearest(fs, client, limit, |fs|, r) <==> NearestInSquares(fs, client, limit, r)
  {
    hide Delivers, Chebyshev, InSquare;
    if 0 <= r < |fs| {
      ChebyshevIsSquare(fs[r].location, client.location, limit);
      forall i, d: real | 0 <= i < |fs|
        ensures InSquare(fs[i].location, client.location, d, true) <==> Distance(fs, client, i) <= d
        ensures InSquare(fs[r].location, client.location, d, true) <==> Distance(fs, client, r) <= d
        ensures InSquare(fs[r].location, client.location, d, false) <==> Distance(fs, client, r) < d
      {
        ChebyshevIsSquare(fs[i].location, client.location, d);
        ChebyshevIsSquare(fs[r].location, client.location, d);
      }
      if NearestInSquares(fs, client, limit, r) {
        forall i | 0 <= i < |fs| && Serves(fs, client, limit, i)
          ensures Distance(fs, client, r) <= Distance(fs, client, i)
          ensures i > r ==> Distance(fs, client, r) < Distance(fs, client, i)
        {
          ChebyshevIsSquare(fs[i].location, client.location, Distance(fs, client, i));
        }
      }
    }
  }

  /**
   The florist for a client: the nearest one selling the flower, the last of them when several are
   equally near; the number of florists when none sells it. `limit` is the largest float.
   */
  method FindFlorist(fs: seq<Florist>, client: Client, limit: real) returns (r: nat)
    ensures if exists i :: Serves(fs, client, limit, i) then Nearest(fs, client, limit, |fs|, r) else r == |fs|
    ensures r == |fs| ==> forall i :: 0 <= i < |fs| && Delivers(fs[i], client.flower) ==>
      !InSquare(fs[i].location, client.location, limit, true)
    ensures r != |fs| ==> NearestInSquares(fs, client, limit, r)
  {
    hide Chebyshev, Delivers, InSquare, NearestInSquares;
    r := |fs|;
    var min := limit;
    for i := 0 to |fs|
      invariant r == |fs| || Nearest(fs, client, limit, i, r)
      invariant r == |fs| ==> min == limit && forall k :: 0 <= k < i ==> !Serves(fs, client, limit, k)
      invariant r < |fs| ==> min == Distance(fs, client, r)
    {
      var delivers := FloristDelivers(fs[i], client.flower);
      if delivers {
        var distance := Chebyshev(fs[i].location, client.location);
        if distance <= min {
          min := distance;
          r := i;
        }
      }
    }
    NearestByCoordinates(fs, client, limit, r);
    forall i | r == |fs| && 0 <= i < |fs| && Delivers(fs[i], client.flower)
      ensures !InSquare(fs[i].location, client.location, limit, true)
    {
      assert !Serves(fs, client, limit, i);
      ChebyshevIsSquare(fs[i].location, client.location, limit);
    }
  }

  /** There is only one such florist. */
  lemma NearestIsUnique(fs: seq<Florist>, client: Client, limit: real, q: int, r: int)
    requires Nearest(fs, client, limit, |fs|, q) && Nearest(fs, client, limit, |fs|, r)
    ensures q == r
  {
  }

  /** Whenever somebody among the first n can serve, one of them is the nearest. */
  lemma {:induction false} NearestExists(fs: seq<Florist>, client: Client, limit: real, n: nat)
    requires n <= |fs|
    requires exists i :: 0 <= i < n && Serves(fs, client, limit, i)
    ensures exists r :: Nearest(fs, client, limit, n, r)
  {
    hide Chebyshev, Delivers;
    if exists i :: 0 <= i < n - 1 && Serves(fs, client, limit, i) {
      NearestExists(fs, client, limit, n - 1);
      var q :| Nearest(fs, client, limit, n - 1, q);
      var last := Serves(fs, client, limit, n - 1) && Distance(fs, client, n - 1) <= Distance(fs, client, q);
      assert Nearest(fs, client, limit, n, if last then n - 1 else q);
    } else {
      assert Nearest(fs, client, limit, n, n - 1);
    }
  }

  /** The florist FindFlorist picks, for a client somebody can serve. */
  ghost function FloristFor(fs: seq<Florist>, client: Client, limit: real): (r: nat)
    requires exists i :: Serves(fs, client, limit, i)
    ensures Nearest(fs, client, limit, |fs|, r)
  {
    NearestExists(fs, client, limit, |fs|);
    var r :| Nearest(fs, client, limit, |fs|, r);
    r
  }
}
