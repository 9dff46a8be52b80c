/** One request served by the graph, the cache and the packet printer together. */
module ConnectionHandler {
  import opened Wrappers
  import opened Packet
  import opened Server
  import ServerTheorems
  import Cache
  import GQ = GrowableQueue
  import Graph
  import PC = PathCapacity
  import PS = PathSearch

  /**
   Answers from the cache, or searches, prints and caches; the answer is the same either way. There is none
   exactly when the pair has to be searched for and its search overruns.
   */
  method Handle(graph: Graph.Graph, cache: Cache.Cache, i: nat, j: nat, slots: nat) returns (path: Option<string>)
    requires PS.Closed(graph.list[..]) && CacheAgrees(graph.list[..], cache.list[..])
    requires i < graph.list.Length && j < graph.list.Length && 0 < slots
    modifies cache.list
    ensures PS.Closed(graph.list[..]) && graph.list[..] == old(graph.list[..])
    ensures path.None? <==> old(Cache.Lookup(cache.list[i], j)).None? && PC.Overruns(graph.list[..], i, j, slots)
    ensures path.None? ==> cache.list[..] == old(cache.list[..])
    ensures path.Some? ==> path.value == AnswerFor(graph.list[..], i, j)
    ensures CacheAgrees(graph.list[..], cache.list[..])
    ensures Cache.Lookup(cache.list[i], j) == path
  {
    hide GQ.Ring, Answer, PC.Overruns;
    ghost var g := graph.list[..];
    path := cache.GetCache(i, j);
    if path.Some? {
      Cache.LookupHas(cache.list[i], j);
      assert cache.list[..][i] == cache.list[i];
      return;
    }
    var bfs, outgrown := graph.Bfs(i, j, slots);
    if outgrown {
      return;
    }
    var text := PreparePacket(bfs);
    cache.ToCache(i, j, text);
    ServerTheorems.CachingAgrees(g, old(cache.list[..]), i, j, text);
    path := Some(text);
  }
}
