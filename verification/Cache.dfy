/** The path cache: one list of answers per start vertex, newest first. */
module Cache {
  import opened Wrappers

  datatype Entries = Nil | Entry(vertex: nat, path: string, next: Entries)

  /** The newest answer cached for j. */
  function Lookup(entries: Entries, j: nat): Option<string> {
    match entries
    case Nil => None
    case Entry(v, path, next) => if v == j then Some(path) else Lookup(next, j)
  }

  /** (j, path) is one of the entries, perhaps not the newest for j. */
  predicate Has(entries: Entries, j: nat, path: string) {
    match entries
    case Nil => false
    case Entry(v, p, next) => (v == j && p == path) || Has(next, j, path)
  }

  lemma {:induction false} LookupHas(entries: Entries, j: nat)
    ensures Lookup(entries, j).Some? ==> Has(entries, j, Lookup(entries, j).value)
    ensures Lookup(entries, j).None? ==> forall path :: !Has(entries, j, path)
  {
    if entries.Entry? { LookupHas(entries.next, j); }
  }

  class Cache {
    var list: array<Entries>

    constructor (V: nat)
      ensures fresh(list) && list.Length == V && forall i :: 0 <= i < V ==> list[i] == Nil
    {
      list := new Entries[V](_ => Nil);
    }

    /** After caching, (i, j) is answered with this path and every other pair as before. */
    method ToCache(i: nat, j: nat, path: string)
      requires i < list.Length
      modifies list
      ensures Lookup(list[i], j) == Some(path)
      ensures forall k, l :: 0 <= k < list.Length && (k != i || l != j) ==>
        Lookup(list[k], l) == old(Lookup(list[k], l))
      ensures list[..] == old(list[..])[i := Entry(j, path, old(list[i]))]
    {
      list[i] := Entry(j, path, list[i]);
    }

    method GetCache(i: nat, j: nat) returns (path: Option<string>)
      requires i < list.Length
      ensures path == Lookup(list[i], j)
    {
      var node := list[i];
      while node.Entry?
        invariant Lookup(node, j) == Lookup(list[i], j)
        decreases node
      {
        if node.vertex == j {
          return Some(node.path);
        }
        node := node.next;
      }
      return None;
    }
  }
}
