/**
  The caching-side registry entry of one procedure implementation: every
  construction takes the next number of the process-wide `lastId` counter as
  its id and derives its fully qualified name from the module and the name.
 */
module CachingImplementation {

  /** The ids `1, 2, ..., n`, in the order they were handed out. */
  function IdsThrough(n: nat): (ids: seq<nat>)
    ensures |ids| == n
    ensures forall i :: 0 <= i < n ==> ids[i] == i + 1
  {
    if n == 0 then [] else IdsThrough(n - 1) + [n]
  }

  /** Ids handed out one after the other are strictly increasing, hence distinct, starting at 1. */
  lemma IdsThroughIncreasing(n: nat)
    ensures forall i, j :: 0 <= i < j < n ==> IdsThrough(n)[i] < IdsThrough(n)[j]
    ensures n > 0 ==> IdsThrough(n)[0] == 1
  {
  }

  /**
    The module-level context of every entry: the `lastId` counter, with the ids
    it has handed out so far, and the one static `FqnBuilder.build` all entries use.
   */
  class IdCounter {
    var lastId: nat
    ghost var issued: seq<nat>
    const buildFqn: (string, string) -> string

    ghost predicate Valid()
      reads this
    {
      issued == IdsThrough(lastId)
    }

    constructor(buildFqn: (string, string) -> string)
      ensures Valid() && lastId == 0 && issued == []
      ensures this.buildFqn == buildFqn
    {
      lastId := 0;
      issued := [];
      this.buildFqn := buildFqn;
    }
  }

  /**
    One registry entry. Every field is a constant: there is no way to change
    an entry after construction.
   */
  class Implementation<Executable> {
    const id: nat
    const mod: string
    const name: string
    const fqn: string
    const access: string
    const version: string
    const executable: Executable

    constructor(counter: IdCounter, mod: string, name: string, access: string, version: string, executable: Executable)
      requires counter.Valid()
      modifies counter
      ensures counter.Valid()
      ensures counter.lastId == old(counter.lastId) + 1 && id == counter.lastId
      ensures counter.issued == old(counter.issued) + [id]
      ensures this.mod == mod && this.name == name && this.access == access
      ensures this.version == version && this.executable == executable
      ensures fqn == counter.buildFqn(mod, name)
    {
      counter.lastId := counter.lastId + 1;
      counter.issued := counter.issued + [counter.lastId];
      id := counter.lastId;
      this.mod := mod;
      this.name := name;
      fqn := counter.buildFqn(mod, name);
      this.access := access;
      this.version := version;
      this.executable := executable;
    }
  }
}
