/**
 When the copies of the path search fit. A new path queue has a fixed number of slots, and a path with
 more vertices than that lies in an enlarged queue, which must never be copied into a new one.
 */
module PathCapacity {
  import opened PathSearch

  /** The queue and the visited vertices after n rounds; a round that finds `end` changes nothing. */
  function After(g: seq<Adjacency>, end: nat, start: nat, n: nat): (seq<seq<nat>>, set<nat>) {
    if n == 0 then ([[start]], {})
    else
      var (queue, visited) := After(g, end, start, n - 1);
      if queue == [] || queue[0] == [] || Last(queue[0]) >= |g| || Last(queue[0]) == end then (queue, visited)
      else
        var seen := visited + {Last(queue[0])};
        (queue[1..] + Extensions(queue[0], Neighbours(g[Last(queue[0])]), seen), seen)
  }

  /** Round n + 1 copies a path that has outgrown the slots it was created with. */
  predicate Overflows(g: seq<Adjacency>, start: nat, end: nat, slots: nat, n: nat) {
    var (queue, visited) := After(g, end, start, n);
    && queue != [] && queue[0] != [] && Last(queue[0]) < |g| && Last(queue[0]) != end
    && |queue[0]| > slots
    && Extensions(queue[0], Neighbours(g[Last(queue[0])]), visited + {Last(queue[0])}) != []
  }

  /** These are the rounds of the search: its outcome is the same from any of them on. */
  lemma {:induction false} AfterContinues(g: seq<Adjacency>, start: nat, end: nat, n: nat)
    requires Closed(g) && start < |g|
    ensures AllSound(g, start, [[start]], {})
    ensures var (queue, visited) := After(g, end, start, n);
      AllSound(g, start, queue, visited)
      && Search(g, start, end, queue, visited) == Search(g, start, end, [[start]], {})
  {
    hide Search, Weight, Extensions;
    assert Sound(g, start, [start], {});
    if n > 0 {
      AfterContinues(g, start, end, n - 1);
      var (queue, visited) := After(g, end, start, n - 1);
      if queue != [] { SearchRound(g, start, end, queue, visited); }
    }
  }

  /** Some copy made for the request outgrows its slots; the two requests answered without a search make none. */
  ghost predicate Overruns(g: seq<Adjacency>, start: nat, end: nat, slots: nat) {
    start != end && !Edge(g, start, end) && exists n: nat :: Overflows(g, start, end, slots, n)
  }

  /** Once a round has nothing left to do, or has found `end`, no later round changes anything. */
  lemma {:induction false} AfterStays(g: seq<Adjacency>, start: nat, end: nat, n: nat, k: nat)
    requires n <= k
    requires var queue := After(g, end, start, n).0; queue == [] || queue[0] == [] || Last(queue[0]) == end
    ensures After(g, end, start, k) == After(g, end, start, n)
  {
    hide Extensions;
    if n < k { AfterStays(g, start, end, n, k - 1); }
  }

  lemma {:induction false} AtFirst(g: seq<Adjacency>, start: nat, end: nat)
    ensures After(g, end, start, 0) == ([[start]], {})
  {
  }

  /** When the search ends before anything overflows, nothing ever does. */
  lemma {:induction false} EndsWithout(g: seq<Adjacency>, start: nat, end: nat, slots: nat, n: nat)
    requires forall k: nat :: k < n ==> !Overflows(g, start, end, slots, k)
    requires var queue := After(g, end, start, n).0; queue == [] || (queue[0] != [] && Last(queue[0]) == end)
    ensures forall k: nat :: !Overflows(g, start, end, slots, k)
  {
    hide After;
    forall k: nat | k >= n ensures !Overflows(g, start, end, slots, k) { AfterStays(g, start, end, n, k); }
  }

  // ---------------------------------------------------------------- which requests fit

  /** A walk of at most that many vertices leads from start to v. */
  ghost predicate Within(g: seq<Adjacency>, start: nat, v: nat, size: nat) {
    exists w :: WalkBetween(g, w, start, v) && |w| <= size
  }

  ghost predicate Reaches(g: seq<Adjacency>, start: nat, v: nat) {
    exists w :: WalkBetween(g, w, start, v)
  }

  /** Every vertex that the start reaches at all lies within that many vertices. */
  ghost predicate AllWithin(g: seq<Adjacency>, start: nat, size: nat) {
    forall v: nat :: Reaches(g, start, v) ==> Within(g, start, v, size)
  }

  /** Every visited vertex lies as near as the path on which it was first visited is long. */
  ghost predicate Dated(g: seq<Adjacency>, start: nat, dist: map<nat, nat>) {
    forall v :: v in dist ==> Within(g, start, v, dist[v])
  }

  /** The queue and the visited vertices after n rounds, with the length at which each was visited. */
  ghost predicate FrontierAt(g: seq<Adjacency>, start: nat, end: nat, n: nat,
                             queue: seq<seq<nat>>, dist: map<nat, nat>) {
    After(g, end, start, n) == (queue, dist.Keys) && Frontier(g, start, end, queue, dist) && Dated(g, start, dist)
  }

  /** A round that goes on keeps the frontier. */
  lemma FrontierGoesOn(g: seq<Adjacency>, start: nat, end: nat, n: nat, queue: seq<seq<nat>>, dist: map<nat, nat>)
    returns (queue': seq<seq<nat>>, dist': map<nat, nat>)
    requires FrontierAt(g, start, end, n, queue, dist) && queue != [] && queue[0] != [] && Last(queue[0]) != end
    ensures FrontierAt(g, start, end, n + 1, queue', dist') && dist'.Keys == dist.Keys + {Last(queue[0])}
    ensures Weight(g, queue') < Weight(g, queue)
  {
    hide Weight, Extensions, EdgesReached, Reached, Layered;
    queue', dist' := FrontierStep(g, start, end, queue, dist);
    var path := queue[0];
    assert Sound(g, start, path, dist.Keys);
    assert WalkBetween(g, path, start, Last(path));
    forall v | v in dist' ensures Within(g, start, v, dist'[v]) {
      if v in dist { assert Within(g, start, v, dist[v]); }
    }
  }

  lemma {:induction false} FrontierStarts(g: seq<Adjacency>, start: nat, end: nat, dist: map<nat, nat>)
    requires Closed(g) && start < |g| && dist == map[]
    ensures FrontierAt(g, start, end, 0, [[start]], dist)
  {
    hide Weight, Extensions;
    assert dist.Keys == {} && Sound(g, start, [start], {}) && QueuedTo([[start]][0], start, 1);
  }

  lemma {:induction false} FrontierAfter(g: seq<Adjacency>, start: nat, end: nat, n: nat)
    returns (queue: seq<seq<nat>>, dist: map<nat, nat>)
    requires Closed(g) && start < |g|
    ensures FrontierAt(g, start, end, n, queue, dist)
  {
    hide Weight, Extensions, EdgesReached, Closed;
    if n == 0 {
      queue, dist := [[start]], map[];
      FrontierStarts(g, start, end, dist);
    } else {
      queue, dist := FrontierAfter(g, start, end, n - 1);
      if queue != [] {
        LastInGraph(g, start, queue, dist.Keys);
        if Last(queue[0]) != end {
          queue, dist := FrontierGoesOn(g, start, end, n - 1, queue, dist);
        }
      }
    }
  }

  /** What lies within fewer vertices than the queued paths have is visited. */
  lemma VisitedInTime(g: seq<Adjacency>, start: nat, end: nat, queue: seq<seq<nat>>, dist: map<nat, nat>,
                      v: nat, size: nat)
    requires Frontier(g, start, end, queue, dist) && Within(g, start, v, size)
    requires queue == [] || |queue[0]| > size
    ensures v in dist
  {
    hide Weight, EdgesReached, Layered, Edge;
    var w :| WalkBetween(g, w, start, v) && |w| <= size;
    FrontierAlong(g, start, end, queue, dist, w, |w| - 1);
  }

  /** A path with an unvisited neighbour of its last vertex is a walk to that neighbour, one vertex longer. */
  lemma WalksOn(g: seq<Adjacency>, start: nat, path: seq<nat>, visited: set<nat>, m: nat)
    requires Closed(g) && Sound(g, start, path, visited) && Edge(g, Last(path), m)
    ensures WalkBetween(g, path + [m], start, m)
  {
  }

  /** The last vertex of a neighbour that is not visited yet gives the path an extension, and only such a one. */
  lemma {:induction false} Extends(path: seq<nat>, neighbours: seq<nat>, visited: set<nat>)
    ensures Extensions(path, neighbours, visited) != [] <==> exists m :: m in neighbours && m !in visited
  {
    if exists m :: m in neighbours && m !in visited {
      var m :| m in neighbours && m !in visited;
      if neighbours[0] != m { Extends(path, neighbours[1..], visited); }
    } else {
      NoExtension(path, neighbours, visited);
    }
  }

  /** A near `end` is found, and a near vertex visited, before any path has outgrown its slots. */
  lemma NearFits(g: seq<Adjacency>, start: nat, end: nat, slots: nat, n: nat)
    requires Closed(g) && start < |g|
    requires Within(g, start, end, slots) || AllWithin(g, start, slots)
    ensures !Overflows(g, start, end, slots, n)
  {
    hide After, Extensions, Weight, EdgesReached, Layered, Neighbours, WalkBetween, Within, Sound, Closed;
    if Overflows(g, start, end, slots, n) {
      var queue, dist := FrontierAfter(g, start, end, n);
      var path := queue[0];
      assert Sound(g, start, path, dist.Keys);
      Extends(path, Neighbours(g[Last(path)]), dist.Keys + {Last(path)});
      var m :| m in Neighbours(g[Last(path)]) && m !in dist.Keys + {Last(path)};
      WalksOn(g, start, path, dist.Keys, m);
      assert Reaches(g, start, m);
      if Within(g, start, end, slots) {
        VisitedInTime(g, start, end, queue, dist, end, slots);
      } else {
        VisitedInTime(g, start, end, queue, dist, m, slots);
      }
      assert false;
    }
  }

  /** A vertex one step beyond the one that is about to be visited keeps the path of slots + 1 vertices growing. */
  lemma {:induction false} FarOverflows(g: seq<Adjacency>, start: nat, end: nat, slots: nat, n: nat,
                                        queue: seq<seq<nat>>, dist: map<nat, nat>, w: seq<nat>)
    requires FrontierAt(g, start, end, n, queue, dist)
    requires !Within(g, start, end, slots + 1) && Walk(g, w) && w[0] == start && |w| == slots + 2
    requires !Within(g, start, w[slots + 1], slots + 1) && w[slots] !in dist
    ensures exists k: nat :: Overflows(g, start, end, slots, k)
    decreases Weight(g, queue)
  {
    hide After, Extensions, Weight, EdgesReached, Layered, Reached, Neighbours;
    var u, m := w[slots], w[slots + 1];
    FrontierAlong(g, start, end, queue, dist, w, slots);
    var path := queue[0];
    assert Sound(g, start, path, dist.Keys);
    assert WalkBetween(g, path, start, Last(path));
    if Last(path) == u {
      assert Edge(g, u, m);
      WalksOn(g, start, path, dist.Keys, m);
      assert |path| == slots + 1;
      assert m !in dist;
      assert m != u;
      Extends(path, Neighbours(g[u]), dist.Keys + {u});
      assert Overflows(g, start, end, slots, n);
    } else {
      var queue', dist' := FrontierGoesOn(g, start, end, n, queue, dist);
      FarOverflows(g, start, end, slots, n + 1, queue', dist', w);
    }
  }

  lemma DirectIsNear(g: seq<Adjacency>, start: nat, end: nat)
    requires Closed(g) && start < |g|
    ensures start == end || Edge(g, start, end) ==> Within(g, start, end, 2)
  {
    if start == end {
      assert WalkBetween(g, [start], start, end);
    } else if Edge(g, start, end) {
      assert WalkBetween(g, [start, end], start, end);
    }
  }

  /** A far vertex makes some path outgrow its slots before a far `end` is found. */
  lemma FarOverruns(g: seq<Adjacency>, start: nat, end: nat, slots: nat)
    requires Closed(g) && start < |g| && 0 < slots
    requires !Within(g, start, end, slots + 1) && !AllWithin(g, start, slots + 1)
    ensures Overruns(g, start, end, slots)
  {
    hide After, Weight, Neighbours, Frontier, Overflows;
    var v: nat :| Reaches(g, start, v) && !Within(g, start, v, slots + 1);
    var w :| WalkBetween(g, w, start, v);
    var k := FirstFar(g, start, slots + 1, w);
    var near :| WalkBetween(g, near, start, w[k - 1]) && |near| <= slots + 1;
    assert WalkBetween(g, near + [w[k]], start, w[k]);
    FrontierStarts(g, start, end, map[]);
    FarOverflows(g, start, end, slots, 0, [[start]], map[], near + [w[k]]);
    DirectIsNear(g, start, end);
  }

  /** The first vertex of a walk that does not lie within that many vertices. */
  lemma {:induction false} FirstFar(g: seq<Adjacency>, start: nat, size: nat, w: seq<nat>) returns (k: nat)
    requires Walk(g, w) && w[0] == start && 0 < size && !Within(g, start, Last(w), size)
    ensures 0 < k < |w| && !Within(g, start, w[k], size) && Within(g, start, w[k - 1], size)
  {
    k := |w| - 1;
    assert WalkBetween(g, [start], start, w[0]);
    while !Within(g, start, w[k - 1], size)
      invariant 0 < k < |w| && !Within(g, start, w[k], size)
      decreases k
    {
      k := k - 1;
      assert WalkBetween(g, [start], start, w[0]);
    }
  }

  /**
   Unless the nearest way to `end`, or the farthest reachable vertex, is exactly one vertex too long for the
   slots, a request overruns exactly when neither `end` nor everything reachable is near enough.
   */
  lemma OverrunsExactly(g: seq<Adjacency>, start: nat, end: nat, slots: nat)
    requires Closed(g) && start < |g| && 0 < slots
    requires Within(g, start, end, slots + 1) ==> Within(g, start, end, slots)
    requires AllWithin(g, start, slots + 1) ==> AllWithin(g, start, slots)
    ensures Overruns(g, start, end, slots) <==> !Within(g, start, end, slots) && !AllWithin(g, start, slots)
  {
    hide Overflows, AllWithin, Within;
    if Within(g, start, end, slots) || AllWithin(g, start, slots) {
      forall n: nat ensures !Overflows(g, start, end, slots, n) { NearFits(g, start, end, slots, n); }
    } else {
      FarOverruns(g, start, end, slots);
    }
  }

  /** With at most one vertex more than slots no copy ever overflows. */
  lemma SmallGraphsFit(g: seq<Adjacency>, start: nat, end: nat, slots: nat, n: nat)
    requires Closed(g) && start < |g| <= slots + 1
    ensures !Overflows(g, start, end, slots, n)
  {
    AfterContinues(g, start, end, n);
    var (queue, visited) := After(g, end, start, n);
    if queue != [] {
      assert Sound(g, start, queue[0], visited);
      ExtensionHasRoom(g, start, queue[0], visited);
    }
  }

  /** Every vertex has an edge to the next one. */
  function Chain(size: nat): (g: seq<Adjacency>)
    ensures |g| == size && forall v :: 0 <= v < size ==> Neighbours(g[v]) == if v + 1 < size then [v + 1] else []
  {
    seq(size, v requires 0 <= v < size => if v + 1 < size then Node(v + 1, Leaf) else Leaf)
  }

  function UpTo(n: nat): (p: seq<nat>)
    ensures |p| == n && forall k :: 0 <= k < n ==> p[k] == k
  {
    seq(n, k requires 0 <= k < n => k)
  }

  lemma {:induction false} OneExtension(path: seq<nat>, v: nat, visited: set<nat>)
    requires v !in visited
    ensures Extensions(path, [v], visited) == [path + [v]]
  {
    assert [v][1..] == [];
  }

  /** While every vertex leads to the next one only, the one queued path has the first n + 1 vertices on it. */
  lemma {:induction false} ChainRounds(g: seq<Adjacency>, end: nat, n: nat)
    requires n < |g| && n <= end && forall v :: 0 <= v < n ==> Neighbours(g[v]) == [v + 1]
    ensures After(g, end, 0, n) == ([UpTo(n + 1)], Below(n))
  {
    hide Extensions, Neighbours, After, UpTo, Below, Last;
    if n == 0 {
      NoRound(g, end);
    } else {
      ChainRounds(g, end, n - 1);
      OneFurther(n);
      OneRound(g, end, n, UpTo(n), Below(n - 1), n);
    }
  }

  lemma OneFurther(n: nat)
    requires n > 0
    ensures UpTo(n) != [] && Last(UpTo(n)) == n - 1 && UpTo(n) + [n] == UpTo(n + 1)
    ensures Below(n - 1) + {n - 1} == Below(n)
  {
  }

  lemma {:induction false} NoRound(g: seq<Adjacency>, end: nat)
    ensures After(g, end, 0, 0) == ([UpTo(1)], Below(0))
  {
    assert UpTo(1) == [0];
  }

  /** A round on a single queued path leaves its extensions. */
  lemma LoneRound(g: seq<Adjacency>, end: nat, n: nat, path: seq<nat>, visited: set<nat>, more: seq<seq<nat>>)
    requires n > 0 && After(g, end, 0, n - 1) == ([path], visited)
    requires path != [] && Last(path) < |g| && Last(path) != end
    requires Extensions(path, Neighbours(g[Last(path)]), visited + {Last(path)}) == more
    ensures After(g, end, 0, n) == (more, visited + {Last(path)})
  {
    hide Extensions, Neighbours;
    assert [path][1..] + more == more;
  }

  lemma OneRound(g: seq<Adjacency>, end: nat, n: nat, path: seq<nat>, visited: set<nat>, next: nat)
    requires n > 0 && After(g, end, 0, n - 1) == ([path], visited)
    requires path != [] && Last(path) < |g| && Last(path) != end && Neighbours(g[Last(path)]) == [next]
    requires next !in visited && next != Last(path)
    ensures After(g, end, 0, n) == ([path + [next]], visited + {Last(path)})
  {
    hide Extensions, After;
    OneExtension(path, next, visited + {Last(path)});
    LoneRound(g, end, n, path, visited, [path + [next]]);
  }

  /** On a chain with two vertices more than slots, or longer, the search overflows. */
  lemma ChainsOverflow(slots: nat, size: nat)
    requires slots + 2 <= size
    ensures Closed(Chain(size)) && Overflows(Chain(size), 0, size - 1, slots, slots)
  {
    hide Extensions, After;
    ChainRounds(Chain(size), size - 1, slots);
    assert Last(UpTo(slots + 1)) == slots && Neighbours(Chain(size)[slots]) == [slots + 1];
    OneExtension(UpTo(slots + 1), slots + 1, Below(slots) + {slots});
  }

  /** A chain of slots vertices whose last one has two more neighbours, the first of which leads to the second. */
  function Fork(slots: nat, detourFirst: bool): (g: seq<Adjacency>)
    requires 0 < slots
    ensures |g| == slots + 2
    ensures forall v :: 0 <= v < slots - 1 ==> Neighbours(g[v]) == [v + 1]
    ensures Neighbours(g[slots - 1]) == if detourFirst then [slots, slots + 1] else [slots + 1, slots]
    ensures Neighbours(g[slots]) == [slots + 1] && Neighbours(g[slots + 1]) == []
  {
    var ways := if detourFirst then Node(slots, Node(slots + 1, Leaf)) else Node(slots + 1, Node(slots, Leaf));
    assert Neighbours(Node(slots, Leaf)) == [slots] && Neighbours(Node(slots + 1, Leaf)) == [slots + 1];
    assert Neighbours(ways) == if detourFirst then [slots, slots + 1] else [slots + 1, slots];
    seq(slots - 1, v requires 0 <= v < slots - 1 => Node(v + 1, Leaf)) + [ways, Node(slots + 1, Leaf), Leaf]
  }

  lemma {:induction false} TwoExtensions(path: seq<nat>, v: nat, w: nat, visited: set<nat>)
    requires v !in visited && w !in visited
    ensures Extensions(path, [v, w], visited) == [path + [v], path + [w]]
  {
    assert [v, w][1..] == [w];
    OneExtension(path, w, visited);
  }

  /** After slots rounds on the fork both ways are queued, in the order of the list. */
  lemma ForkRounds(slots: nat, detourFirst: bool)
    requires 0 < slots
    ensures var g, path := Fork(slots, detourFirst), UpTo(slots);
      After(g, slots + 1, 0, slots)
      == (if detourFirst then [path + [slots], path + [slots + 1]] else [path + [slots + 1], path + [slots]],
          Below(slots))
  {
    hide Fork, Extensions, After;
    var g, path := Fork(slots, detourFirst), UpTo(slots);
    ChainRounds(g, slots + 1, slots - 1);
    assert Last(path) == slots - 1 && Below(slots - 1) + {slots - 1} == Below(slots);
    var first, second := if detourFirst then slots else slots + 1, if detourFirst then slots + 1 else slots;
    TwoExtensions(path, first, second, Below(slots));
    LoneRound(g, slots + 1, slots, path, Below(slots - 1), [path + [first], path + [second]]);
  }

  /** The same edges in another order, and one search overruns where the other does not. */
  lemma OrderDecides(slots: nat)
    requires 1 < slots
    ensures var g, h := Fork(slots, true), Fork(slots, false);
      && Closed(g) && Closed(h) && |g| == |h| && (forall i: nat, j: nat :: Edge(g, i, j) <==> Edge(h, i, j))
      && Overruns(g, 0, slots + 1, slots) && !Overruns(h, 0, slots + 1, slots)
  {
    ForkEdges(slots);
    hide Fork, Overflows, Closed, Neighbours;
    var h, end := Fork(slots, false), slots + 1;
    DetourOverflows(slots);
    forall n: nat ensures !Overflows(h, 0, end, slots, n) { DirectFits(slots, n); }
  }

  lemma ForkEdges(slots: nat)
    requires 1 < slots
    ensures var g, h := Fork(slots, true), Fork(slots, false);
      && Closed(g) && Closed(h) && |g| == |h| && (forall i: nat, j: nat :: Edge(g, i, j) <==> Edge(h, i, j))
      && !Edge(g, 0, slots + 1)
  {
    hide Fork, Neighbours;
  }

  lemma DetourOverflows(slots: nat)
    requires 1 < slots
    ensures Overflows(Fork(slots, true), 0, slots + 1, slots, slots)
  {
    ForkRounds(slots, true);
    OneExtension(UpTo(slots) + [slots], slots + 1, Below(slots) + {slots});
    hide Fork, Extensions, After, Neighbours;
  }

  lemma DirectFits(slots: nat, n: nat)
    requires 1 < slots
    ensures !Overflows(Fork(slots, false), 0, slots + 1, slots, n)
  {
    hide Fork, Extensions, After, Neighbours;
    if n < slots {
      ChainRounds(Fork(slots, false), slots + 1, n);
    } else {
      ForkRounds(slots, false);
      AfterStays(Fork(slots, false), 0, slots + 1, slots, n);
    }
  }

  /** The slots suffice for every graph of a size exactly when it has at most one vertex more than slots. */
  lemma SlotsSuffice(slots: nat, size: nat)
    ensures size <= slots + 1 <==>
      forall g, start: nat, end: nat, n: nat ::
        Closed(g) && |g| == size && start < size ==> !Overflows(g, start, end, slots, n)
  {
    if size <= slots + 1 {
      forall g, start: nat, end: nat, n: nat | Closed(g) && |g| == size && start < size
        ensures !Overflows(g, start, end, slots, n)
      {
        SmallGraphsFit(g, start, end, slots, n);
      }
    } else {
      ChainsOverflow(slots, size);
    }
  }
}
