/** The server's threads with the memory they share; every method is one step of one thread. */
module Pool {
  import opened Wrappers
  import opened Packet
  import opened Server
  import ServerTheorems
  import Cache
  import Graph
  import GQ = GrowableQueue
  import PC = PathCapacity
  import PS = PathSearch

  class Pool {
    const graph: Graph.Graph
    const slots: nat
    const cache: Cache.Cache
    const handlers: array<Handler>
    var readTry: int
    var readMutex: int
    var writeMutex: int
    var cacheMutex: int
    var graphMutex: int
    var readCount: int
    var writeCount: int
    var log: seq<Response>
    /** A search has written past the end of a path queue; no thread takes a step after that. */
    var overrun: bool

    ghost function Footprint(): set<object>
      reads cache
    {
      {this, handlers, cache.list}
    }

    /** The graph is well-formed and apart from what the threads change. */
    ghost predicate Valid()
      reads this, graph, graph.list, cache, handlers, cache.list
    {
      && PS.Closed(graph.list[..]) && 0 < slots
      && graph.list as object != handlers && graph.list as object != cache.list
      && handlers as object != cache.list
    }

    /** The thread is about to search for a pair whose search overruns. */
    ghost predicate Overrunning(h: Handler)
      reads this, graph, graph.list
    {
      h.at.Computing? && PC.Overruns(graph.list[..], h.i, h.j, slots)
    }

    /** The state the protocol's properties speak about. */
    ghost function View(): State
      reads this, cache, handlers, cache.list
    {
      State(handlers[..], readTry, readMutex, writeMutex, cacheMutex, graphMutex, readCount, writeCount,
            cache.list[..], log)
    }

    constructor (graph: Graph.Graph, slots: nat, threads: nat)
      requires PS.Closed(graph.list[..]) && 0 < slots
      ensures Valid() && this.graph == graph && fresh(Footprint()) && View() == Init(graph.list[..], threads)
      ensures this.slots == slots && !overrun
    {
      this.graph, this.slots := graph, slots;
      cache := new Cache.Cache(graph.list.Length);
      handlers := new Handler[threads](_ => Handler(Idle, 0, 0, None));
      readTry, readMutex, writeMutex, cacheMutex, graphMutex := 1, 1, 1, 1, 1;
      readCount, writeCount, log, overrun := 0, 0, [], false;
    }

    /** The steps of read_database. */
    method ReadDatabase(t: nat)
      requires Valid() && !overrun && Enabled(graph.list[..], View(), Step(t)) && Looking(handlers[t].at)
      modifies Footprint()
      ensures Valid() && !overrun && graph.list[..] == old(graph.list[..])
      ensures View() == Exec(graph.list[..], old(View()), Step(t))
    {
      hide PS.Closed, PS.Bfs, Answer;
      var h := handlers[t];
      match h.at
      case TryRead =>
        readTry := readTry - 1;
        handlers[t] := h.(at := LockRead);
      case LockRead =>
        readMutex := readMutex - 1;
        handlers[t] := h.(at := CountIn);
      case CountIn =>
        readCount := readCount + 1;
        handlers[t] := h.(at := if readCount == 1 then FirstReader else UnlockRead);
      case FirstReader =>
        cacheMutex := cacheMutex - 1;
        handlers[t] := h.(at := UnlockRead);
      case UnlockRead =>
        readMutex := readMutex + 1;
        handlers[t] := h.(at := ReleaseTry);
      case ReleaseTry =>
        readTry := readTry + 1;
        handlers[t] := h.(at := Reading);
      case Reading =>
        var path := cache.GetCache(h.i, h.j);
        handlers[t] := h.(at := LockLeave, path := path);
      case LockLeave =>
        readMutex := readMutex - 1;
        handlers[t] := h.(at := CountOut);
      case CountOut =>
        readCount := readCount - 1;
        handlers[t] := h.(at := if readCount == 0 then LastReader else UnlockLeave);
      case LastReader =>
        cacheMutex := cacheMutex + 1;
        handlers[t] := h.(at := UnlockLeave);
      case UnlockLeave =>
        readMutex := readMutex + 1;
        handlers[t] := h.(at := if h.path.Some? then Responding else AwaitGraph);
    }

    /** The search on a miss, from waiting for the graph to releasing it. */
    method SearchGraph(t: nat)
      requires Valid() && !overrun && Enabled(graph.list[..], View(), Step(t)) && Searching(handlers[t].at)
      modifies Footprint()
      ensures Valid() && graph.list[..] == old(graph.list[..])
      ensures overrun <==> old(Overrunning(handlers[t]))
      ensures View() == if overrun then old(View()) else Exec(graph.list[..], old(View()), Step(t))
    {
      hide PS.Closed, PS.Bfs, Answer, GQ.Ring, PC.Overruns;
      var h := handlers[t];
      match h.at
      case AwaitGraph =>
        graphMutex := graphMutex - 1;
        handlers[t] := h.(at := Computing);
      case Computing =>
        var bfs, outgrown := graph.Bfs(h.i, h.j, slots);
        if outgrown {
          overrun := true;
          return;
        }
        var path := PreparePacket(bfs);
        handlers[t] := h.(at := ReleaseGraph, path := Some(path));
      case ReleaseGraph =>
        graphMutex := graphMutex + 1;
        handlers[t] := h.(at := LockWrite);
    }

    /** The steps of write_database, and the response. */
    method WriteDatabase(t: nat)
      requires Valid() && !overrun && Enabled(graph.list[..], View(), Step(t)) && !handlers[t].at.Idle?
      requires !Looking(handlers[t].at) && !Searching(handlers[t].at)
      modifies Footprint()
      ensures Valid() && !overrun && graph.list[..] == old(graph.list[..])
      ensures View() == Exec(graph.list[..], old(View()), Step(t))
    {
      hide PS.Closed, PS.Bfs, Answer;
      var h := handlers[t];
      match h.at
      case LockWrite =>
        writeMutex := writeMutex - 1;
        handlers[t] := h.(at := CountWriter);
      case CountWriter =>
        writeCount := writeCount + 1;
        handlers[t] := h.(at := if writeCount == 1 then FirstWriter else UnlockWrite);
      case FirstWriter =>
        readTry := readTry - 1;
        handlers[t] := h.(at := UnlockWrite);
      case UnlockWrite =>
        writeMutex := writeMutex + 1;
        handlers[t] := h.(at := AwaitCache);
      case AwaitCache =>
        cacheMutex := cacheMutex - 1;
        handlers[t] := h.(at := Writing);
      case Writing =>
        cache.ToCache(h.i, h.j, h.path.value);
        handlers[t] := h.(at := ReleaseCache);
      case ReleaseCache =>
        cacheMutex := cacheMutex + 1;
        handlers[t] := h.(at := LockDone);
      case LockDone =>
        writeMutex := writeMutex - 1;
        handlers[t] := h.(at := CountDone);
      case CountDone =>
        writeCount := writeCount - 1;
        handlers[t] := h.(at := if writeCount == 0 then LastWriter else UnlockDone);
      case LastWriter =>
        readTry := readTry + 1;
        handlers[t] := h.(at := UnlockDone);
      case UnlockDone =>
        writeMutex := writeMutex + 1;
        handlers[t] := h.(at := Responding);
      case Responding =>
        log := log + [Response(h.i, h.j, h.path.value)];
        handlers[t] := h.(at := Idle);
    }

    /** A new connection is handed to an idle thread. */
    method Accept(t: nat, i: nat, j: nat)
      requires Valid() && !overrun && Enabled(graph.list[..], View(), Connect(t, i, j))
      modifies Footprint()
      ensures Valid() && !overrun && graph.list[..] == old(graph.list[..])
      ensures View() == Exec(graph.list[..], old(View()), Connect(t, i, j))
    {
      hide PS.Closed;
      handlers[t] := Handler(TryRead, i, j, None);
    }

    /** Any enabled action follows the protocol and keeps its invariants, but for a search that overruns. */
    method Act(a: Action)
      requires Valid() && !overrun && Enabled(graph.list[..], View(), a)
      requires LocksInv(View()) && AnswersInv(graph.list[..], View())
      modifies Footprint()
      ensures Valid() && graph.list[..] == old(graph.list[..])
      ensures overrun <==> a.Step? && old(Overrunning(handlers[a.t]))
      ensures View() == if overrun then old(View()) else Exec(graph.list[..], old(View()), a)
      ensures LocksInv(View()) && AnswersInv(graph.list[..], View())
    {
      hide LocksInv, AnswersInv, Exec, PS.Closed;
      ServerTheorems.StepKeepsLocks(graph.list[..], View(), a);
      ServerTheorems.StepKeepsAnswers(graph.list[..], View(), a);
      match a
      case Connect(t, i, j) => Accept(t, i, j);
      case Step(t) =>
        if Looking(handlers[t].at) {
          ReadDatabase(t);
        } else if Searching(handlers[t].at) {
          SearchGraph(t);
        } else {
          WriteDatabase(t);
        }
    }

    predicate Looking(at: At) {
      at.TryRead? || at.LockRead? || at.CountIn? || at.FirstReader? || at.UnlockRead? || at.ReleaseTry?
      || at.Reading? || at.LockLeave? || at.CountOut? || at.LastReader? || at.UnlockLeave?
    }

    predicate Searching(at: At) { at.AwaitGraph? || at.Computing? || at.ReleaseGraph? }
  }
}
