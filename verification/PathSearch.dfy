/**
 Breadth-first search over a queue of whole paths, as a function: a vertex is marked visited when a
 path ending in it leaves the queue, so it may be queued and expanded several times.
 */
module PathSearch {
  import opened Wrappers

  /** An adjacency list; add_edge puts new neighbours in front. */
  datatype Adjacency = Leaf | Node(vertex: nat, next: Adjacency)

  function Neighbours(a: Adjacency): seq<nat> {
    match a
    case Leaf => []
    case Node(v, next) => [v] + Neighbours(next)
  }

  /** The edges of every vertex stay within the graph. */
  ghost predicate Closed(g: seq<Adjacency>) {
    forall v, n :: 0 <= v < |g| && n in Neighbours(g[v]) ==> n < |g|
  }

  predicate Edge(g: seq<Adjacency>, i: nat, j: nat) {
    i < |g| && j in Neighbours(g[i])
  }

  /** A non-empty sequence of vertices, each an edge away from the one before. */
  ghost predicate Walk(g: seq<Adjacency>, p: seq<nat>) {
    && p != []
    && (forall k :: 0 <= k < |p| ==> p[k] < |g|)
    && (forall k :: 0 < k < |p| ==> Edge(g, p[k - 1], p[k]))
  }

  function Last(p: seq<nat>): nat
    requires p != []
  {
    p[|p| - 1]
  }

  ghost predicate WalkBetween(g: seq<Adjacency>, p: seq<nat>, start: nat, end: nat) {
    Walk(g, p) && p[0] == start && Last(p) == end
  }

  ghost predicate Distinct(p: seq<nat>) {
    forall i, j :: 0 <= i < j < |p| ==> p[i] != p[j]
  }

  /** A queued path is simple and every vertex on it but the last has been visited. */
  ghost predicate Sound(g: seq<Adjacency>, start: nat, p: seq<nat>, visited: set<nat>) {
    && Walk(g, p) && p[0] == start && Distinct(p)
    && forall k :: 0 <= k < |p| - 1 ==> p[k] in visited
  }

  ghost predicate AllSound(g: seq<Adjacency>, start: nat, queue: seq<seq<nat>>, visited: set<nat>) {
    forall i :: 0 <= i < |queue| ==> Sound(g, start, queue[i], visited)
  }

  /** The path extended by each neighbour that is not visited, in list order. */
  function Extensions(path: seq<nat>, neighbours: seq<nat>, visited: set<nat>): (r: seq<seq<nat>>)
    ensures |r| <= |neighbours|
    ensures forall i :: 0 <= i < |r| ==> |r[i]| == |path| + 1
  {
    if neighbours == [] then []
    else if neighbours[0] in visited then Extensions(path, neighbours[1..], visited)
    else [path + [neighbours[0]]] + Extensions(path, neighbours[1..], visited)
  }

  /** The extensions along an adjacency list, cell by cell. */
  lemma {:induction false} NextExtension(path: seq<nat>, a: Adjacency, visited: set<nat>)
    ensures a.Node? ==> a.vertex in Neighbours(a) && forall v: nat :: v in Neighbours(a.next) ==> v in Neighbours(a)
    ensures Extensions(path, Neighbours(a), visited)
      == if a.Leaf? then []
         else (if a.vertex in visited then [] else [path + [a.vertex]]) + Extensions(path, Neighbours(a.next), visited)
  {
    if a.Node? { assert Neighbours(a)[1..] == Neighbours(a.next); }
  }

  // ---------------------------------------------------------------- termination

  ghost function MaxDegree(g: seq<Adjacency>): (d: nat)
    ensures forall v :: 0 <= v < |g| ==> |Neighbours(g[v])| <= d
  {
    if g == [] then 0
    else
      var first, rest := |Neighbours(g[0])|, MaxDegree(g[1..]);
      assert forall v :: 0 < v < |g| ==> g[v] == g[1..][v - 1];
      if first > rest then first else rest
  }

  ghost function Power(base: nat, exponent: nat): nat {
    if exponent == 0 then 1 else base * Power(base, exponent - 1)
  }

  /** What a path of this length may still cause: (D + 1) to the power of the vertices it does not contain. */
  ghost function PathWeight(g: seq<Adjacency>, length: nat): nat {
    if length > |g| then 0 else Power(MaxDegree(g) + 1, |g| - length)
  }

  ghost function Weight(g: seq<Adjacency>, queue: seq<seq<nat>>): nat {
    if queue == [] then 0 else PathWeight(g, |queue[0]|) + Weight(g, queue[1..])
  }

  lemma {:induction false} WeightAppend(g: seq<Adjacency>, a: seq<seq<nat>>, b: seq<seq<nat>>)
    ensures Weight(g, a + b) == Weight(g, a) + Weight(g, b)
  {
    if a == [] {
      assert a + b == b;
    } else {
      assert (a + b)[1..] == a[1..] + b;
      WeightAppend(g, a[1..], b);
    }
  }

  lemma {:induction false} WeightBound(g: seq<Adjacency>, queue: seq<seq<nat>>, length: nat)
    requires forall i :: 0 <= i < |queue| ==> |queue[i]| == length
    ensures Weight(g, queue) == |queue| * PathWeight(g, length)
  {
    if queue != [] {
      assert forall i :: 0 <= i < |queue[1..]| ==> queue[1..][i] == queue[i + 1];
      WeightBound(g, queue[1..], length);
      assert |queue| * PathWeight(g, length) == PathWeight(g, length) + |queue[1..]| * PathWeight(g, length);
    }
  }

  /** The vertices of a graph of n vertices. */
  ghost function Below(n: nat): (s: set<nat>)
    ensures |s| == n && forall v: nat :: v in s <==> v < n
  {
    if n == 0 then {} else Below(n - 1) + {n - 1}
  }

  ghost function Members(p: seq<nat>): (s: set<nat>)
    ensures forall v: nat :: v in s <==> v in p
  {
    set v: nat | v in p
  }

  lemma {:induction false} DistinctCount(p: seq<nat>)
    requires Distinct(p)
    ensures |Members(p)| == |p|
  {
    if p == [] {
      assert Members(p) == {};
    } else {
      var rest := p[1..];
      DistinctCount(rest);
      assert p == [p[0]] + rest;
      assert p[0] !in rest;
      assert Members(p) == Members(rest) + {p[0]};
    }
  }

  /** A simple path is no longer than the graph is large, and as long only if it has every vertex on it. */
  lemma PathFits(p: seq<nat>, size: nat)
    requires Distinct(p) && forall k :: 0 <= k < |p| ==> p[k] < size
    ensures |p| <= size
    ensures |p| == size ==> forall v: nat :: v < size ==> v in p
  {
    var members := Members(p);
    DistinctCount(p);
    forall v: nat | v in members ensures v in Below(size) {
      assert v in p;
    }
    SubsetCount(members, Below(size));
    forall v: nat | |p| == size && v < size ensures v in p {
      if v !in p { SubsetCount(members, Below(size) - {v}); }
    }
  }

  lemma {:induction false} SubsetCount(a: set<nat>, b: set<nat>)
    requires a <= b
    ensures |a| <= |b|
  {
    if a != {} {
      var x :| x in a;
      SubsetCount(a - {x}, b - {x});
    }
  }

  /** When every neighbour is visited the path has no extension. */
  lemma {:induction false} NoExtension(path: seq<nat>, neighbours: seq<nat>, visited: set<nat>)
    requires forall n :: n in neighbours ==> n in visited
    ensures Extensions(path, neighbours, visited) == []
  {
    if neighbours != [] {
      assert neighbours[0] in neighbours;
      forall n | n in neighbours[1..] ensures n in visited { assert n in neighbours; }
      NoExtension(path, neighbours[1..], visited);
    }
  }

  /** Only a path that does not have every vertex on it is ever extended. */
  lemma {:induction false} ExtensionHasRoom(g: seq<Adjacency>, start: nat, path: seq<nat>, visited: set<nat>)
    requires Closed(g) && Sound(g, start, path, visited)
    ensures |path| <= |g|
    ensures |path| == |g| ==> Extensions(path, Neighbours(g[Last(path)]), visited + {Last(path)}) == []
  {
    PathFits(path, |g|);
    if |path| == |g| {
      forall n | n in Neighbours(g[Last(path)]) ensures n in visited + {Last(path)} {
        assert n in path;
      }
      NoExtension(path, Neighbours(g[Last(path)]), visited + {Last(path)});
    }
  }

  /** Replacing a path by its extensions strictly lowers the weight of the queue. */
  lemma {:induction false} ExpansionDecreases(g: seq<Adjacency>, start: nat, queue: seq<seq<nat>>, visited: set<nat>)
    requires Closed(g) && queue != [] && AllSound(g, start, queue, visited)
    ensures var path := queue[0];
      var seen := visited + {Last(path)};
      Weight(g, queue[1..] + Extensions(path, Neighbours(g[Last(path)]), seen)) < Weight(g, queue)
  {
    var path := queue[0];
    assert Sound(g, start, path, visited);
    var seen := visited + {Last(path)};
    var neighbours := Neighbours(g[Last(path)]);
    var more := Extensions(path, neighbours, seen);
    WeightAppend(g, queue[1..], more);
    WeightBound(g, more, |path| + 1);
    ExtensionHasRoom(g, start, path, visited);
    if |path| == |g| {
      assert PathWeight(g, |path|) == 1;
    } else {
      var d, w := MaxDegree(g), PathWeight(g, |path| + 1);
      PowerPositive(d + 1, |g| - |path| - 1);
      Growth(|more|, d, w);
      assert PathWeight(g, |path|) == (d + 1) * w;
    }
  }

  lemma Growth(a: nat, d: nat, w: nat)
    requires a <= d && w > 0
    ensures a * w < (d + 1) * w
  {
    assert a * w <= d * w < d * w + w == (d + 1) * w;
  }

  lemma {:induction false} PowerPositive(base: nat, exponent: nat)
    requires base > 0
    ensures Power(base, exponent) > 0
  {
    if exponent > 0 { PowerPositive(base, exponent - 1); }
  }

  // ---------------------------------------------------------------- the search

  /** Takes paths off the queue until one ends in `end`; every other one is replaced by its extensions. */
  function Search(g: seq<Adjacency>, ghost start: nat, end: nat, queue: seq<seq<nat>>, visited: set<nat>)
    : Option<seq<nat>>
    requires Closed(g) && AllSound(g, start, queue, visited)
    decreases Weight(g, queue)
  {
    if queue == [] then None
    else
      var path := queue[0];
      assert Sound(g, start, path, visited);
      var node := Last(path);
      if node == end then Some(path)
      else
        var seen := visited + {node};
        ExpansionSound(g, start, queue, visited);
        ExpansionDecreases(g, start, queue, visited);
        Search(g, start, end, queue[1..] + Extensions(path, Neighbours(g[node]), seen), seen)
  }

  /** The whole lookup: the trivial path, a single edge, or the search. */
  function Bfs(g: seq<Adjacency>, start: nat, end: nat): Option<seq<nat>>
    requires Closed(g) && start < |g| && end < |g|
  {
    if start == end then Some([start])
    else if Edge(g, start, end) then Some([start, end])
    else Search(g, start, end, [[start]], {})
  }

  /** An exhausted queue means there is no path. */
  lemma {:induction false} SearchEnds(g: seq<Adjacency>, start: nat, end: nat, visited: set<nat>)
    requires Closed(g) && AllSound(g, start, [], visited)
    ensures Search(g, start, end, [], visited).None?
  {
  }

  /** One round of the search, as an equation. */
  lemma {:induction false} SearchRound(g: seq<Adjacency>, start: nat, end: nat, queue: seq<seq<nat>>, visited: set<nat>)
    requires Closed(g) && AllSound(g, start, queue, visited) && queue != []
    ensures queue[0] != [] && Last(queue[0]) < |g| && |queue[0]| <= |g|
    ensures var path := queue[0];
      var seen := visited + {Last(path)};
      var more := Extensions(path, Neighbours(g[Last(path)]), seen);
      && (|path| == |g| ==> more == [])
      && AllSound(g, start, queue[1..] + more, seen)
      && Weight(g, queue[1..] + more) < Weight(g, queue)
      && Search(g, start, end, queue, visited)
         == if Last(path) == end then Some(path) else Search(g, start, end, queue[1..] + more, seen)
  {
    assert Sound(g, start, queue[0], visited);
    ExtensionHasRoom(g, start, queue[0], visited);
    ExpansionSound(g, start, queue, visited);
    ExpansionDecreases(g, start, queue, visited);
  }

  lemma {:induction false} ExtensionsSound(g: seq<Adjacency>, start: nat, path: seq<nat>, neighbours: seq<nat>,
                                           visited: set<nat>)
    requires Closed(g) && Sound(g, start, path, visited) && Last(path) in visited
    requires forall n :: n in neighbours ==> Edge(g, Last(path), n)
    ensures AllSound(g, start, Extensions(path, neighbours, visited), visited)
  {
    if neighbours != [] {
      var n := neighbours[0];
      assert n in neighbours;
      forall m | m in neighbours[1..] ensures Edge(g, Last(path), m) { assert m in neighbours; }
      ExtensionsSound(g, start, path, neighbours[1..], visited);
      if n !in visited {
        assert Sound(g, start, path + [n], visited);
      }
    }
  }

  lemma ExpansionSound(g: seq<Adjacency>, start: nat, queue: seq<seq<nat>>, visited: set<nat>)
    requires Closed(g) && queue != [] && AllSound(g, start, queue, visited)
    ensures var path := queue[0];
      var seen := visited + {Last(path)};
      AllSound(g, start, queue[1..] + Extensions(path, Neighbours(g[Last(path)]), seen), seen)
  {
    var path := queue[0];
    assert Sound(g, start, path, visited);
    var seen := visited + {Last(path)};
    ExtensionsSound(g, start, path, Neighbours(g[Last(path)]), seen);
    forall i | 0 <= i < |queue[1..]| ensures Sound(g, start, queue[1..][i], seen) {
      assert Sound(g, start, queue[i + 1], visited);
    }
  }

  // ---------------------------------------------------------------- shortest paths

  /** n has been visited at distance at most d, or a path of at most d vertices that ends in n is queued. */
  ghost predicate Reached(queue: seq<seq<nat>>, dist: map<nat, nat>, n: nat, d: nat) {
    || (n in dist && dist[n] <= d)
    || exists i :: 0 <= i < |queue| && QueuedTo(queue[i], n, d)
  }

  ghost predicate QueuedTo(p: seq<nat>, n: nat, d: nat) {
    p != [] && Last(p) == n && |p| <= d
  }

  /** The queue is ordered by length and spans at most two lengths. */
  ghost predicate Layered(queue: seq<seq<nat>>) {
    && (forall i, j :: 0 <= i <= j < |queue| ==> |queue[i]| <= |queue[j]|)
    && (forall i :: 0 <= i < |queue| ==> |queue[i]| <= |queue[0]| + 1)
  }

  /** `dist` gives every visited vertex the length of the path on which it was first visited. */
  ghost predicate Frontier(g: seq<Adjacency>, start: nat, end: nat, queue: seq<seq<nat>>, dist: map<nat, nat>) {
    && Closed(g) && AllSound(g, start, queue, dist.Keys) && Layered(queue)
    && end !in dist && Reached(queue, dist, start, 1)
    && (forall v :: v in dist ==> v < |g| && (queue != [] ==> dist[v] <= |queue[0]|))
    && EdgesReached(g, queue, dist)
  }

  /** Every neighbour of a visited vertex is reached at most one step later. */
  ghost predicate EdgesReached(g: seq<Adjacency>, queue: seq<seq<nat>>, dist: map<nat, nat>) {
    forall v, n :: v in dist && Edge(g, v, n) ==> Reached(queue, dist, n, dist[v] + 1)
  }

  /** Along any walk from the start, each vertex is visited in time or the head of the queue is short enough. */
  lemma {:induction false} FrontierAlong(g: seq<Adjacency>, start: nat, end: nat, queue: seq<seq<nat>>,
                                         dist: map<nat, nat>, w: seq<nat>, k: nat)
    requires Frontier(g, start, end, queue, dist) && Walk(g, w) && w[0] == start && k < |w|
    ensures (w[k] in dist && dist[w[k]] <= k + 1) || (queue != [] && |queue[0]| <= k + 1)
  {
    if k == 0 {
      assert Reached(queue, dist, w[0], 1);
    } else {
      FrontierAlong(g, start, end, queue, dist, w, k - 1);
      if w[k - 1] in dist && dist[w[k - 1]] <= k {
        assert Edge(g, w[k - 1], w[k]);
        assert Reached(queue, dist, w[k], dist[w[k - 1]] + 1);
      }
    }
  }

  /** What was reached stays reached when the head of the queue is expanded. */
  lemma ReachedStays(g: seq<Adjacency>, start: nat, queue: seq<seq<nat>>, dist: map<nat, nat>,
                     queue': seq<seq<nat>>, dist': map<nat, nat>, n: nat, d: nat)
    requires queue != [] && queue[0] != [] && Reached(queue, dist, n, d)
    requires |queue| - 1 <= |queue'| && forall i :: 0 < i < |queue| ==> queue'[i - 1] == queue[i]
    requires forall v :: v in dist ==> v in dist' && dist'[v] == dist[v]
    requires Last(queue[0]) in dist' && dist'[Last(queue[0])] <= |queue[0]|
    ensures Reached(queue', dist', n, d)
  {
    if !(n in dist && dist[n] <= d) {
      var i :| 0 <= i < |queue| && QueuedTo(queue[i], n, d);
      if i > 0 { assert QueuedTo(queue'[i - 1], n, d); }
    }
  }

  /** Every neighbour of the head's last vertex is visited or queued one step further. */
  lemma {:induction false} ExtensionsReach(path: seq<nat>, neighbours: seq<nat>, visited: set<nat>, n: nat)
    requires path != [] && n in neighbours && n !in visited
    ensures exists i :: 0 <= i < |Extensions(path, neighbours, visited)|
                        && QueuedTo(Extensions(path, neighbours, visited)[i], n, |path| + 1)
  {
    var r := Extensions(path, neighbours, visited);
    if neighbours[0] == n {
      assert QueuedTo(r[0], n, |path| + 1);
    } else {
      var rest := Extensions(path, neighbours[1..], visited);
      ExtensionsReach(path, neighbours[1..], visited, n);
      var i :| 0 <= i < |rest| && QueuedTo(rest[i], n, |path| + 1);
      assert r == rest || r[i + 1] == rest[i];
      assert QueuedTo(r[if r == rest then i else i + 1], n, |path| + 1);
    }
  }

  lemma LastInGraph(g: seq<Adjacency>, start: nat, queue: seq<seq<nat>>, visited: set<nat>)
    requires AllSound(g, start, queue, visited) && queue != []
    ensures queue[0] != [] && Last(queue[0]) < |g|
  {
    assert Sound(g, start, queue[0], visited);
  }

  /** Extensions of the head go to the back of an ordered queue without disturbing the order. */
  lemma LayeredStep(queue: seq<seq<nat>>, more: seq<seq<nat>>)
    requires queue != [] && Layered(queue) && forall i :: 0 <= i < |more| ==> |more[i]| == |queue[0]| + 1
    ensures var queue' := queue[1..] + more;
      Layered(queue') && (queue' != [] ==> |queue[0]| <= |queue'[0]|)
  {
  }

  /** What the search knows of the vertices when the head of the queue has been expanded. */
  ghost function Marked(queue: seq<seq<nat>>, dist: map<nat, nat>): (r: map<nat, nat>)
    requires queue != [] && queue[0] != []
    ensures r.Keys == dist.Keys + {Last(queue[0])}
    ensures forall v :: v in r <==> v in dist || v == Last(queue[0])
    ensures forall v :: v in dist ==> r[v] == dist[v]
    ensures Last(queue[0]) !in dist ==> r[Last(queue[0])] == |queue[0]|
  {
    if Last(queue[0]) in dist then dist else dist[Last(queue[0]) := |queue[0]|]
  }

  /** Every edge from a marked vertex leads to one that is reached in time. */
  lemma EdgeReached(g: seq<Adjacency>, start: nat, end: nat, queue: seq<seq<nat>>, dist: map<nat, nat>,
                    v: nat, n: nat)
    requires Frontier(g, start, end, queue, dist) && queue != [] && queue[0] != [] && Last(queue[0]) < |g|
    requires v in Marked(queue, dist) && Edge(g, v, n)
    ensures var dist' := Marked(queue, dist);
      var queue' := queue[1..] + Extensions(queue[0], Neighbours(g[Last(queue[0])]), dist'.Keys);
      Reached(queue', dist', n, dist'[v] + 1)
  {
    hide Weight, Sound, Layered, Marked, Closed, AllSound;
    var path, dist' := queue[0], Marked(queue, dist);
    var more := Extensions(path, Neighbours(g[Last(path)]), dist'.Keys);
    var queue' := queue[1..] + more;
    if v in dist {
      ReachedStays(g, start, queue, dist, queue', dist', n, dist[v] + 1);
    } else if n !in dist' {
      ExtensionsReach(path, Neighbours(g[Last(path)]), dist'.Keys, n);
      var i :| 0 <= i < |more| && QueuedTo(more[i], n, |path| + 1);
      assert queue'[|queue| - 1 + i] == more[i];
    }
  }

  lemma EdgesStayReached(g: seq<Adjacency>, start: nat, end: nat, queue: seq<seq<nat>>, dist: map<nat, nat>)
    requires Frontier(g, start, end, queue, dist) && queue != [] && queue[0] != [] && Last(queue[0]) < |g|
    ensures var dist' := Marked(queue, dist);
      EdgesReached(g, queue[1..] + Extensions(queue[0], Neighbours(g[Last(queue[0])]), dist'.Keys), dist')
  {
    hide Frontier, Marked, Reached, Extensions, Neighbours, Edge;
    var dist' := Marked(queue, dist);
    var queue' := queue[1..] + Extensions(queue[0], Neighbours(g[Last(queue[0])]), dist'.Keys);
    forall v, n | v in dist' && Edge(g, v, n) ensures Reached(queue', dist', n, dist'[v] + 1) {
      EdgeReached(g, start, end, queue, dist, v, n);
    }
  }

  lemma StartStaysReached(g: seq<Adjacency>, start: nat, end: nat, queue: seq<seq<nat>>, dist: map<nat, nat>,
                          more: seq<seq<nat>>)
    requires Frontier(g, start, end, queue, dist) && queue != [] && queue[0] != []
    ensures Reached(queue[1..] + more, Marked(queue, dist), start, 1)
  {
    hide Marked, Reached, EdgesReached, Closed, AllSound, Sound, Layered;
    var dist' := Marked(queue, dist);
    assert Last(queue[0]) in dist' && dist'[Last(queue[0])] <= |queue[0]|;
    ReachedStays(g, start, queue, dist, queue[1..] + more, dist', start, 1);
  }

  lemma MarksStayInTime(g: seq<Adjacency>, start: nat, end: nat, queue: seq<seq<nat>>, dist: map<nat, nat>, v: nat)
    requires Frontier(g, start, end, queue, dist) && queue != [] && queue[0] != [] && Last(queue[0]) < |g|
    requires v in Marked(queue, dist)
    ensures v < |g| && Marked(queue, dist)[v] <= |queue[0]|
  {
    hide Reached, EdgesReached, Closed, AllSound, Sound, Layered;
  }

  /** Expanding the head of the queue keeps the frontier. */
  lemma FrontierStep(g: seq<Adjacency>, start: nat, end: nat, queue: seq<seq<nat>>, dist: map<nat, nat>)
    returns (queue': seq<seq<nat>>, dist': map<nat, nat>)
    requires Frontier(g, start, end, queue, dist) && queue != []
    requires queue[0] != [] && Last(queue[0]) != end
    ensures Frontier(g, start, end, queue', dist')
    ensures Last(queue[0]) < |g|
    ensures dist' == Marked(queue, dist)
    ensures queue' == queue[1..] + Extensions(queue[0], Neighbours(g[Last(queue[0])]), dist'.Keys)
    ensures Weight(g, queue') < Weight(g, queue)
  {
    hide Weight, Sound, Layered, Marked, Reached, EdgesReached, Extensions, Neighbours, Closed, AllSound;
    var path := queue[0];
    LastInGraph(g, start, queue, dist.Keys);
    dist' := Marked(queue, dist);
    var more := Extensions(path, Neighbours(g[Last(path)]), dist'.Keys);
    queue' := queue[1..] + more;
    LayeredStep(queue, more);
    ExpansionSound(g, start, queue, dist.Keys);
    ExpansionDecreases(g, start, queue, dist.Keys);
    StartStaysReached(g, start, end, queue, dist, more);
    EdgesStayReached(g, start, end, queue, dist);
    forall v | v in dist' ensures v < |g| && (queue' != [] ==> dist'[v] <= |queue'[0]|) {
      MarksStayInTime(g, start, end, queue, dist, v);
    }
  }

  /** From any frontier the search returns a walk to `end` that no walk is shorter than, or there is none. */
  lemma {:induction false} SearchCorrect(g: seq<Adjacency>, start: nat, end: nat, queue: seq<seq<nat>>,
                                         dist: map<nat, nat>)
    requires Frontier(g, start, end, queue, dist)
    ensures match Search(g, start, end, queue, dist.Keys)
      case Some(p) => WalkBetween(g, p, start, end) && forall w :: WalkBetween(g, w, start, end) ==> |p| <= |w|
      case None => forall w :: !WalkBetween(g, w, start, end)
    decreases Weight(g, queue)
  {
    if queue != [] && Last(queue[0]) != end {
      var queue', dist' := FrontierStep(g, start, end, queue, dist);
      SearchCorrect(g, start, end, queue', dist');
    } else {
      forall w | WalkBetween(g, w, start, end) ensures queue != [] && |queue[0]| <= |w| {
        FrontierAlong(g, start, end, queue, dist, w, |w| - 1);
      }
    }
  }

  /** The lookup returns a path exactly when `end` is reachable, and then a shortest one. */
  lemma BfsCorrect(g: seq<Adjacency>, start: nat, end: nat)
    requires Closed(g) && start < |g| && end < |g|
    ensures Bfs(g, start, end).Some? <==> exists w :: WalkBetween(g, w, start, end)
    ensures Bfs(g, start, end).Some? ==>
      var p := Bfs(g, start, end).value;
      WalkBetween(g, p, start, end) && forall w :: WalkBetween(g, w, start, end) ==> |p| <= |w|
  {
    if start == end {
      assert WalkBetween(g, [start], start, end);
    } else if Edge(g, start, end) {
      assert WalkBetween(g, [start, end], start, end);
      forall w | WalkBetween(g, w, start, end) ensures 2 <= |w| {}
    } else {
      assert Sound(g, start, [start], {});
      assert QueuedTo([[start]][0], start, 1);
      var none: map<nat, nat> := map[];
      assert none.Keys == {};
      SearchCorrect(g, start, end, [[start]], none);
    }
  }
}
