/** The server's graph: adjacency lists in an array, and the breadth-first search that runs on it. */
module Graph {
  import opened Wrappers
  import opened GrowableQueue
  import PC = PathCapacity
  import PS = PathSearch

  /**
   The queue of path queues holds, in order, the paths `items`; each of its queues still has the `slots`
   slots it was created with, unless its path has one vertex more, and is with its slots among the objects `own`.
   */
  ghost predicate Carries(queue: seq<Queue?<nat>>, items: seq<seq<nat>>, slots: nat, own: set<object>)
    reads own
  {
    && |queue| == |items|
    && forall i :: 0 <= i < |queue| ==> CarriesPath(queue[i], items[i], slots, own)
  }

  ghost predicate CarriesPath(q: Queue?<nat>, path: seq<nat>, slots: nat, own: set<object>)
    reads own
  {
    && q != null && q in own && q.line in own
    && q.Valid() && q.Contents() == path && |path| <= slots + 1
    && q.cap == if |path| <= slots then slots else 2 * slots
  }

  class Graph {
    var list: array<PS.Adjacency>

    constructor (V: nat)
      ensures fresh(list) && list.Length == V && forall v :: 0 <= v < V ==> list[v] == PS.Leaf
    {
      list := new PS.Adjacency[V](_ => PS.Leaf);
    }

    /** Puts j in front of the neighbours of i; nothing else changes. */
    method AddEdge(i: nat, j: nat)
      requires i < list.Length
      modifies list
      ensures forall v :: 0 <= v < list.Length ==>
                PS.Neighbours(list[v]) == (if v == i then [j] else []) + old(PS.Neighbours(list[v]))
    {
      list[i] := PS.Node(j, list[i]);
    }

    method Edge(i: nat, j: nat) returns (found: bool)
      requires i < list.Length
      ensures found == PS.Edge(list[..], i, j)
    {
      var node := list[i];
      while node.Node?
        invariant j in PS.Neighbours(list[i]) <==> j in PS.Neighbours(node)
        decreases node
      {
        if node.vertex == j {
          return true;
        }
        node := node.next;
      }
      return false;
    }
  
    /** A copy of `path` with one more vertex at the end. */
    method Extend(path: Queue<nat>, vertex: nat, slots: nat) returns (q: Queue<nat>)
      requires path.Valid() && path.cap == slots > 0
      ensures fresh(q) && fresh(q.line) && q.Valid() && q.cap == if q.size <= slots then slots else 2 * slots
      ensures q.Contents() == path.Contents() + [vertex]
    {
      hide Ring;
      q := new Queue<nat>(slots);
      Queue.Copy(path, q);
      q := Queue.Enqueue(q, vertex);
    }

    /** Puts a path queue behind the others. */
    method Append(paths: Queue<Queue?<nat>>, path: Queue<nat>, slots: nat,
                  ghost items: seq<seq<nat>>, ghost own: set<object>)
      returns (r: Queue<Queue?<nat>>)
      requires paths.Valid() && paths.cap > 0 && paths !in own && paths.line !in own
      requires Carries(paths.Contents(), items, slots, own)
      requires path.Valid() && path as object != paths && path.line as object != paths.line
      requires path.size <= slots + 1 && path.cap == if path.size <= slots then slots else 2 * slots
      modifies paths, paths.line
      ensures r.Valid() && r.cap > 0 && (r == paths || fresh(r)) && (r.line == old(paths.line) || fresh(r.line))
      ensures Carries(r.Contents(), items + [old(path.Contents())], slots, own + {path, path.line})
    {
      hide Ring;
      ghost var before := paths.Contents();
      forall i | 0 <= i < |before| ensures allocated(before[i]) {
        var k :| 0 <= k < paths.line.Length && paths.line[..][k] == before[i];
        assert paths.line[k] == before[i];
      }
      r := Queue.Enqueue(paths, path);
      ghost var own' := own + {path, path.line};
      forall i | 0 <= i < |before| ensures CarriesPath(before[i], items[i], slots, own') {
        assert old(CarriesPath(before[i], items[i], slots, own));
        assert before[i].line[..] == old(before[i].line[..]);
      }
      assert path.line[..] == old(path.line[..]);
      assert CarriesPath(path, old(path.Contents()), slots, own');
    }

    /**
     Queues, behind the others, one extended copy of `path` for each neighbour that is not visited. A path that
     has outgrown the slots of a new queue cannot be copied into one: the first such copy ends the search.
     */
    method Expand(paths: Queue<Queue?<nat>>, path: Queue<nat>, first: PS.Adjacency, visited: array<bool>, slots: nat,
                  ghost seen: set<nat>, ghost items: seq<seq<nat>>, ghost own: set<object>)
      returns (r: Queue<Queue?<nat>>, overrun: bool, ghost own': set<object>)
      requires paths.Valid() && paths.cap > 0 && paths !in own && paths.line !in own
      requires Carries(paths.Contents(), items, slots, own)
      requires path.Valid() && slots > 0 && path in own && path.line in own
      requires path.cap == if path.size <= slots then slots else 2 * slots
      requires forall v: nat :: v in PS.Neighbours(first) ==> v < visited.Length && (visited[v] <==> v in seen)
      modifies paths, paths.line
      ensures r.Valid() && r.cap > 0 && (r == paths || fresh(r)) && (r.line == old(paths.line) || fresh(r.line))
      ensures own <= own' && fresh(own' - own) && r !in own' && r.line !in own'
      ensures overrun <==>
        old(path.size) > slots && PS.Extensions(old(path.Contents()), PS.Neighbours(first), seen) != []
      ensures !overrun ==>
        Carries(r.Contents(), items + PS.Extensions(old(path.Contents()), PS.Neighbours(first), seen), slots, own')
    {
      hide Ring, Carries, CarriesPath, PS.Extensions, PS.Neighbours;
      r, own', overrun := paths, own, false;
      var adj := first;
      ghost var p := path.Contents();
      ghost var done := items;
      while adj.Node?
        invariant r.Valid() && r.cap > 0 && r !in own' && r.line !in own'
        invariant (r == paths || fresh(r)) && (r.line == old(paths.line) || fresh(r.line))
        invariant own <= own' && fresh(own' - own)
        invariant path.Valid() && path.cap == old(path.cap) && path.Contents() == p && path in own && path.line in own
        invariant forall v: nat :: v in PS.Neighbours(adj) ==> v in PS.Neighbours(first)
        invariant Carries(r.Contents(), done, slots, own') && (|p| > slots ==> done == items)
        invariant items + PS.Extensions(p, PS.Neighbours(first), seen)
               == done + PS.Extensions(p, PS.Neighbours(adj), seen)
        decreases adj
      {
        PS.NextExtension(p, adj, seen);
        if visited[adj.vertex] {
          adj := adj.next;
        } else {
          if path.cap > slots {
            overrun := true;
            return;
          }
          var newPath := Extend(path, adj.vertex, slots);
          r := Append(r, newPath, slots, done, own');
          own' := own' + {newPath, newPath.line};
          done := done + [p + [adj.vertex]];
          adj := adj.next;
        }
      }
      PS.NextExtension(p, adj, seen);
      assert done + [] == done;
    }

    /**
     A shortest path from start to end, or null when there is none. `slots` is the capacity the path
     queues are created with: a path queue that has been enlarged no longer fits a new one. The method stops
     where the source would write past the end of the new queue, which happens exactly to the requests
     that overrun.
     */
    method Bfs(start: nat, end: nat, slots: nat) returns (r: Queue?<nat>, overrun: bool)
      requires PS.Closed(list[..]) && start < list.Length && end < list.Length && 0 < slots
      ensures overrun <==> PC.Overruns(list[..], start, end, slots)
      ensures !overrun ==> (r == null <==> PS.Bfs(list[..], start, end).None?)
      ensures r != null ==>
        && !overrun && fresh(r) && fresh(r.line) && r.Valid() && r.cap > 0
        && PS.Bfs(list[..], start, end) == Some(r.Contents())
    {
      overrun := false;
      if start == end {
        var q := new Queue<nat>(list.Length);
        r := Queue.Enqueue(q, start);
        assert r.Contents() == [start];
        return;
      }
      var direct := Edge(start, end);
      if direct {
        var q := new Queue<nat>(list.Length);
        q := Queue.Enqueue(q, start);
        r := Queue.Enqueue(q, end);
        assert r.Contents() == [start, end];
        return;
      }
      r, overrun := SearchPaths(start, end, slots);
    }

    /** What the search knows between two rounds: the queue, the marks, and the answer still to be found. */
    ghost predicate Searching(paths: Queue<Queue?<nat>>, visited: array<bool>, slots: nat, start: nat,
                              items: seq<seq<nat>>, seen: set<nat>, own: set<object>)
      reads this, list, paths, paths.line, visited, own
    {
      && paths.Valid() && paths.cap > 0 && paths !in own && paths.line !in own && visited !in own
      && Carries(paths.Contents(), items, slots, own)
      && 0 < slots && visited.Length == list.Length
      && visited as object != paths && visited as object != paths.line
      && visited as object != list
      && (forall v: nat :: v < list.Length ==> (visited[v] <==> v in seen))
      && PS.Closed(list[..]) && PS.AllSound(list[..], start, items, seen)
    }

    /** One round: take a path, stop if it ends in `end`, otherwise mark its last vertex and expand it. */
    method Round(paths: Queue<Queue?<nat>>, visited: array<bool>, slots: nat, end: nat, ghost start: nat, ghost n: nat,
                 ghost items: seq<seq<nat>>, ghost seen: set<nat>, ghost own: set<object>)
      returns (found: Queue?<nat>, r: Queue<Queue?<nat>>, overrun: bool,
               ghost items': seq<seq<nat>>, ghost seen': set<nat>, ghost own': set<object>)
      requires Searching(paths, visited, slots, start, items, seen, own) && items != []
      requires PC.After(list[..], end, start, n) == (items, seen)
      requires list !in own && list as object != paths && list as object != paths.line
      modifies paths, paths.line, visited
      ensures list[..] == old(list[..])
      ensures overrun <==> PC.Overflows(list[..], start, end, slots, n)
      ensures found != null ==>
        && !overrun && items[0] != [] && PS.Last(items[0]) == end
        && found in own && found.line in own && found.Valid() && found.cap > 0
        && PS.Search(list[..], start, end, items, seen) == Some(found.Contents())
      ensures found == null && !overrun ==>
        && Searching(r, visited, slots, start, items', seen', own')
        && PC.After(list[..], end, start, n + 1) == (items', seen')
        && (r == paths || fresh(r)) && (r.line == old(paths.line) || fresh(r.line))
        && own <= own' && fresh(own' - own)
        && PS.Weight(list[..], items') < PS.Weight(list[..], items)
        && PS.Search(list[..], start, end, items', seen') == PS.Search(list[..], start, end, items, seen)
    {
      hide Ring, PS.Search, PS.Weight, PS.Extensions, PS.AllSound;
      ghost var g := list[..];
      r, own', items', seen', found, overrun := paths, own, items, seen, null, false;
      PS.SearchRound(g, start, end, items, seen);
      assert CarriesPath(paths.Contents()[0], items[0], slots, own);
      var head := paths.Dequeue();
      var path := head.value;
      assert CarriesPath(path, items[0], slots, own);
      assert Carries(paths.Contents(), items[1..], slots, own);
      var last := path.Back();
      var node := last.value;
      if node == end {
        found := path;
        return;
      }
      visited[node] := true;
      seen' := seen + {node};
      assert Carries(paths.Contents(), items[1..], slots, own);
      r, overrun, own' := Expand(paths, path, list[node], visited, slots, seen', items[1..], own);
      items' := items[1..] + PS.Extensions(items[0], PS.Neighbours(g[node]), seen');
    }

    method BeginPaths(start: nat, slots: nat) returns (paths: Queue<Queue?<nat>>, path: Queue<nat>)
      requires 0 < slots
      ensures fresh(paths) && fresh(paths.line) && fresh(path) && fresh(path.line)
      ensures paths as object != path && paths.line as object != path.line
      ensures paths.Valid() && paths.cap > 0 && Carries(paths.Contents(), [[start]], slots, {path, path.line})
    {
      hide Ring;
      path := new Queue<nat>(slots);
      path := Queue.Enqueue(path, start);
      assert path.Contents() == [start];
      paths := new Queue<Queue?<nat>>(1024);
      paths := Append(paths, path, slots, [], {});
      assert [] + [[start]] == [[start]] && {} + {path, path.line} == {path, path.line};
    }

    /** Nothing is visited and the path of the start alone is queued. */
    method Begin(start: nat, slots: nat)
      returns (paths: Queue<Queue?<nat>>, visited: array<bool>, ghost own: set<object>)
      requires PS.Closed(list[..]) && start < list.Length && 0 < slots
      requires PS.AllSound(list[..], start, [[start]], {})
      ensures fresh(paths) && fresh(paths.line) && fresh(visited) && fresh(own)
      ensures Searching(paths, visited, slots, start, [[start]], {}, own)
    {
      hide Ring, PS.AllSound, PS.Closed, Carries;
      visited := new bool[list.Length](_ => false);
      var path;
      paths, path := BeginPaths(start, slots);
      own := {path, path.line};
    }

    method SearchPaths(start: nat, end: nat, slots: nat) returns (r: Queue?<nat>, overrun: bool)
      requires PS.Closed(list[..]) && start < list.Length && end < list.Length && 0 < slots
      requires PS.AllSound(list[..], start, [[start]], {})
      ensures overrun <==> exists n: nat :: PC.Overflows(list[..], start, end, slots, n)
      ensures !overrun ==> (r == null <==> PS.Search(list[..], start, end, [[start]], {}).None?)
      ensures r != null ==>
        && !overrun && fresh(r) && fresh(r.line) && r.Valid() && r.cap > 0
        && PS.Search(list[..], start, end, [[start]], {}) == Some(r.Contents())
    {
      hide Ring, PS.Search, PS.Weight, PS.Extensions, PS.AllSound, PC.After, PC.Overflows;
      ghost var g := list[..];
      var paths, visited;
      ghost var own;
      paths, visited, own := Begin(start, slots);
      ghost var items: seq<seq<nat>> := [[start]];
      ghost var seen: set<nat> := {};
      ghost var n: nat := 0;
      PC.AtFirst(g, start, end);
      while !paths.IsEmpty()
        invariant Searching(paths, visited, slots, start, items, seen, own)
        invariant fresh(paths) && fresh(paths.line) && fresh(visited) && fresh(own) && list[..] == g
        invariant PS.Search(g, start, end, items, seen) == PS.Search(g, start, end, [[start]], {})
        invariant PC.After(g, end, start, n) == (items, seen)
        invariant forall k: nat :: k < n ==> !PC.Overflows(g, start, end, slots, k)
        decreases PS.Weight(g, items)
      {
        var found;
        ghost var round := n;
        ghost var before := items;
        found, paths, overrun, items, seen, own := Round(paths, visited, slots, end, start, n, items, seen, own);
        if overrun {
          return null, true;
        }
        if found != null {
          PC.EndsWithout(g, start, end, slots, n);
          return found, false;
        }
        n := n + 1;
      }
      PS.SearchEnds(g, start, end, seen);
      PC.EndsWithout(g, start, end, slots, n);
      return null, false;
    }
  }
}
