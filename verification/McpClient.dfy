/** The request table of the playground's MCP client: every request issued is settled at most once. */
module McpClient {
  import opened Wrappers

  /** How a request's promise was settled. */
  datatype Settlement = Resolved | Rejected(status: nat)

  ghost function IdsBelow(n: nat): (ids: set<nat>)
    ensures forall id :: id in ids <==> 0 < id < n
  {
    if n <= 1 then {} else IdsBelow(n - 1) + {n - 1}
  }

  class McpSseClient {
    var idCounter: nat
    var pending: set<nat>
    var connectedUrl: string
    // The outcome of every promise so far, and the requests whose POST failed.
    ghost var settled: map<nat, Settlement>
    ghost var failedPosts: set<nat>

    ghost function Issued(): set<nat>
      reads this
    {
      IdsBelow(idCounter)
    }

    /** Every request issued is pending, settled or failed, and a pending one is nothing else. */
    ghost predicate Valid()
      reads this
    {
      && idCounter >= 1 && pending + settled.Keys + failedPosts == Issued()
      && pending !! settled.Keys && pending !! failedPosts
    }

    /** No promise is settled again or differently. */
    twostate predicate KeepsSettled()
      reads this
    {
      old(settled).Keys <= settled.Keys && forall id :: id in old(settled) ==> settled[id] == old(settled)[id]
    }

    constructor ()
      ensures Valid() && pending == {} && settled == map[] && failedPosts == {} && idCounter == 1
    {
      idCounter, pending, connectedUrl, settled, failedPosts := 1, {}, "", map[], {};
    }

    /** A new id, never used before, even across resets. */
    method Register() returns (id: nat)
      requires Valid()
      modifies this
      ensures Valid() && KeepsSettled() && id !in old(Issued()) && idCounter == old(idCounter) + 1
      ensures pending == old(pending) + {id} && settled == old(settled) && failedPosts == old(failedPosts)
      ensures connectedUrl == old(connectedUrl)
    {
      id := idCounter;
      idCounter := idCounter + 1;
      pending := pending + {id};
      assert Issued() == old(Issued()) + {id};
    }

    /** The 30-second timer rejects only a request that is still pending. */
    method TimeOut(id: nat)
      requires Valid() && id in Issued()
      modifies this
      ensures Valid() && KeepsSettled() && idCounter == old(idCounter) && failedPosts == old(failedPosts)
      ensures pending == old(pending) - {id} && connectedUrl == old(connectedUrl)
      ensures settled == if id in old(pending) then old(settled)[id := Rejected(504)] else old(settled)
    {
      if id in pending {
        pending := pending - {id};
        settled := settled[id := Rejected(504)];
      }
    }

    /** A failed POST takes the request out of the table; later messages and timers find nothing. */
    method PostFailed(id: nat)
      requires Valid() && id in Issued()
      modifies this
      ensures Valid() && KeepsSettled() && idCounter == old(idCounter) && settled == old(settled)
      ensures pending == old(pending) - {id} && failedPosts == old(failedPosts) + {id}
      ensures connectedUrl == old(connectedUrl)
    {
      pending := pending - {id};
      failedPosts := failedPosts + {id};
    }

    /** A message settles the pending request it names; any other message changes nothing. */
    method HandleMessage(id: Option<int>, isError: bool)
      requires Valid()
      modifies this
      ensures Valid() && KeepsSettled() && idCounter == old(idCounter) && failedPosts == old(failedPosts)
      ensures connectedUrl == old(connectedUrl)
      ensures
        if id.Some? && id.value >= 0 && id.value in old(pending) then
          && pending == old(pending) - {id.value}
          && settled == old(settled)[id.value := if isError then Rejected(502) else Resolved]
        else pending == old(pending) && settled == old(settled)
    {
      if id.None? || id.value !in pending {
        return;
      }
      var found: nat := id.value;
      pending := pending - {found};
      settled := settled[found := if isError then Rejected(502) else Resolved];
    }

    /** A reset rejects everything pending; ids go on from where they were. */
    method Reset()
      requires Valid()
      modifies this
      ensures Valid() && KeepsSettled() && idCounter == old(idCounter) && failedPosts == old(failedPosts)
      ensures pending == {} && connectedUrl == old(connectedUrl)
      ensures settled.Keys == old(settled).Keys + old(pending)
      ensures forall id :: id in old(pending) ==> settled[id] == Rejected(503)
    {
      settled := map id | id in settled.Keys + pending :: if id in settled then settled[id] else Rejected(503);
      pending := {};
    }

    /** A request to another server first resets the client. */
    method Connect(url: string)
      requires Valid()
      modifies this
      ensures Valid() && KeepsSettled() && idCounter == old(idCounter) && connectedUrl == url
      ensures failedPosts == old(failedPosts)
      ensures url == old(connectedUrl) ==> pending == old(pending) && settled == old(settled)
      ensures url != old(connectedUrl) ==> pending == {} && settled.Keys == old(settled).Keys + old(pending)
      ensures url != old(connectedUrl) ==> forall id :: id in old(pending) ==> settled[id] == Rejected(503)
    {
      if connectedUrl != url {
        Reset();
        connectedUrl := url;
      }
    }
  }
}
