/**
  The process-wide client handle: `startClient` builds and starts a local node
  and, once it has started, publishes it as the current client and resolves
  every caller of `getClient` still waiting for it; `getClient` hands out the current client, or makes the
  caller wait when there is none yet. Each call is one atomic step, as in the
  single-threaded runtime; waiters are numbered in the order they start waiting.
 */
module ClientBootstrap {

  datatype RemoteRepository = RemoteRepository(url: string)

  datatype RemoteGateway = RemoteGateway(url: string)

  /** The local node, with the two sets the bootstrap assigns; starting it is otherwise opaque. */
  class LocalNode {
    const repository: RemoteRepository
    const gateway: RemoteGateway
    var segmentNames: set<string>
    var middlewareFiles: set<string>
    var started: bool

    constructor(repository: RemoteRepository, gateway: RemoteGateway)
      ensures this.repository == repository && this.gateway == gateway && !started
    {
      this.repository := repository;
      this.gateway := gateway;
      segmentNames := {};
      middlewareFiles := {};
      started := false;
    }

    /** `start()`: settles as the network lets it; `ok` is false when the promise rejects. */
    method Start() returns (ok: bool)
      modifies this`started
      ensures started == ok
    {
      ok := *;
      started := ok;
    }
  }

  /** `new Set(items)`: the distinct items of the array. */
  function SetOf(items: seq<string>): (r: set<string>)
    ensures forall x :: x in r <==> x in items
    ensures items == [] ==> r == {}
  {
    set x | x in items
  }

  /** Waiter `waiter` was handed `node`. */
  datatype Resolution = Resolution(waiter: nat, node: LocalNode)

  /** The waiter numbers `0, 1, ..., n - 1`. */
  function Ids(n: nat): (ids: seq<nat>)
    ensures |ids| == n
    ensures forall i :: 0 <= i < n ==> ids[i] == i
  {
    if n == 0 then [] else Ids(n - 1) + [n - 1]
  }

  /** Waiter number `w` occurs exactly once among the first `n`. */
  lemma {:induction false} IdsOnce(n: nat, w: nat)
    requires w < n
    ensures multiset(Ids(n))[w] == 1
  {
    if w < n - 1 {
      IdsOnce(n - 1, w);
    } else {
      assert w !in Ids(n - 1);
    }
  }

  /** Resolving every waiter of `waiters`, in order, with the same node. */
  function Resolve(waiters: seq<nat>, node: LocalNode): (r: seq<Resolution>)
    ensures |r| == |waiters|
    ensures forall i :: 0 <= i < |r| ==> r[i].waiter == waiters[i] && r[i].node == node
  {
    if waiters == [] then [] else [Resolution(waiters[0], node)] + Resolve(waiters[1..], node)
  }

  /** The waiters a log of resolutions has resolved, in order. */
  function Resolved(log: seq<Resolution>): (ws: seq<nat>)
    ensures |ws| == |log|
    ensures forall i :: 0 <= i < |ws| ==> ws[i] == log[i].waiter
  {
    if log == [] then [] else [log[0].waiter] + Resolved(log[1..])
  }

  /** Resolving a queue records exactly the queue's waiters. */
  lemma ResolvedResolve(log: seq<Resolution>, waiters: seq<nat>, node: LocalNode)
    ensures Resolved(log + Resolve(waiters, node)) == Resolved(log) + waiters
  {
    var r := Resolved(log + Resolve(waiters, node));
    assert |r| == |Resolved(log) + waiters|;
    forall i | 0 <= i < |r|
      ensures r[i] == (Resolved(log) + waiters)[i]
    {
      if i >= |log| {
        assert (log + Resolve(waiters, node))[i] == Resolve(waiters, node)[i - |log|];
      }
    }
  }

  /** The module state of the bootstrap: `client`, `resolvers`, and the log of resolutions made. */
  class ClientState {
    var client: LocalNode?
    var resolvers: seq<nat>
    var resolutions: seq<Resolution>
    var queued: nat

    /**
      Every waiter that ever started waiting is either resolved or still
      waiting, in the order it came, never both and never twice; and nobody
      waits once there is a client.
     */
    ghost predicate Valid()
      reads this
    {
      && Resolved(resolutions) + resolvers == Ids(queued)
      && (client != null ==> resolvers == [])
    }

    constructor()
      ensures Valid()
      ensures client == null && resolvers == [] && resolutions == [] && queued == 0
    {
      client := null;
      resolvers := [];
      resolutions := [];
      queued := 0;
    }

    /** Waiter `w`, once it has started waiting, is resolved or still waiting exactly once. */
    lemma WaiterOnce(w: nat)
      requires Valid() && w < queued
      ensures multiset(Resolved(resolutions) + resolvers)[w] == 1
    {
      IdsOnce(queued, w);
    }

    /**
      `getClient`: the current client at once, or (with none yet) nothing until
      `startClient`, the caller queued as waiter number `queued`.
     */
    method GetClient() returns (node: LocalNode?)
      requires Valid()
      modifies this
      ensures Valid()
      ensures client == old(client) && resolutions == old(resolutions)
      ensures old(client) == null ==>
        node == null && resolvers == old(resolvers) + [old(queued)] && queued == old(queued) + 1
      ensures old(client) != null ==>
        node == old(client) && resolvers == old(resolvers) && queued == old(queued)
    {
      if client == null {
        resolvers := resolvers + [queued];
        queued := queued + 1;
        return null;
      }
      return client;
    }

    /**
      `startClient`: builds a node for `remoteUrl` and starts it. When the start
      succeeds (`ok`), the node is published and every queued waiter is resolved
      with it, then the queue is emptied; when it rejects, the bootstrap state is
      left exactly as it was and the waiters keep waiting.
     */
    method StartClient(remoteUrl: string, segmentNames: seq<string> := [], middlewares: seq<string> := [])
      returns (node: LocalNode, ok: bool)
      requires Valid()
      modifies this
      ensures Valid()
      ensures fresh(node) && node.started == ok
      ensures node.repository == RemoteRepository(remoteUrl) && node.gateway == RemoteGateway(remoteUrl)
      ensures node.segmentNames == SetOf(segmentNames) && node.middlewareFiles == SetOf(middlewares)
      ensures ok ==>
        && client == node
        && resolutions == old(resolutions) + Resolve(old(resolvers), node)
        && resolvers == []
      ensures !ok ==> client == old(client) && resolutions == old(resolutions) && resolvers == old(resolvers)
      ensures queued == old(queued)
    {
      node, ok := StartNode(remoteUrl, segmentNames, middlewares);
      if !ok {
        return;
      }
      client := node;
      ResolveWaiters(node);
      ResolvedResolve(old(resolutions), resolvers, node);
      resolvers := [];
    }

    /** Hands `node` to every queued waiter, first come first served. */
    method ResolveWaiters(node: LocalNode)
      modifies this`resolutions
      ensures resolutions == old(resolutions) + Resolve(resolvers, node)
    {
      for i := 0 to |resolvers|
        invariant resolutions == old(resolutions) + Resolve(resolvers[..i], node)
      {
        assert resolvers[..i + 1] == resolvers[..i] + [resolvers[i]];
        ResolveAppend(resolvers[..i], resolvers[i], node);
        resolutions := resolutions + [Resolution(resolvers[i], node)];
      }
      assert resolvers[..|resolvers|] == resolvers;
    }
  }

  /** Builds the local node for `remoteUrl` with its segments and middlewares, and starts it; `ok` tells whether the start succeeded. */
  method StartNode(remoteUrl: string, segmentNames: seq<string>, middlewares: seq<string>)
    returns (node: LocalNode, ok: bool)
    ensures fresh(node) && node.started == ok
    ensures node.repository == RemoteRepository(remoteUrl) && node.gateway == RemoteGateway(remoteUrl)
    ensures node.segmentNames == SetOf(segmentNames) && node.middlewareFiles == SetOf(middlewares)
  {
    node := new LocalNode(RemoteRepository(remoteUrl), RemoteGateway(remoteUrl));
    node.segmentNames := SetOf(segmentNames);
    node.middlewareFiles := SetOf(middlewares);
    ok := node.Start();
  }

  /** Resolving one more waiter appends its resolution. */
  lemma ResolveAppend(waiters: seq<nat>, w: nat, node: LocalNode)
    ensures Resolve(waiters + [w], node) == Resolve(waiters, node) + [Resolution(w, node)]
  {
    var r := Resolve(waiters + [w], node);
    assert |r| == |waiters| + 1;
    forall i | 0 <= i < |r|
      ensures r[i] == (Resolve(waiters, node) + [Resolution(w, node)])[i]
    {
    }
  }
}
