// One websocket client of a node, and how many clients of a set meet a condition.
module Clients {
  import opened Base
  import opened Presence

  // A client object; the id stands for the pointer identity the hub's maps are keyed by.
  datatype Client = Client(id: nat, userID: int64, workspaceID: int64, channelID: int64, remoteIP: string)

  function ConnOf(c: Client): Conn {
    Conn(c.userID, c.workspaceID, c.channelID)
  }

  function Select(clients: set<Client>, scope: Scope): set<Client> {
    set c | c in clients && In(ConnOf(c), scope)
  }

  lemma SelectAdd(clients: set<Client>, c: Client, scope: Scope)
    requires c !in clients
    ensures |Select(clients + {c}, scope)| == |Select(clients, scope)| + Bit(In(ConnOf(c), scope))
  {
    if In(ConnOf(c), scope) {
      assert Select(clients + {c}, scope) == Select(clients, scope) + {c};
    } else {
      assert Select(clients + {c}, scope) == Select(clients, scope);
    }
  }

  lemma SelectRemove(clients: set<Client>, c: Client, scope: Scope)
    requires c in clients
    ensures |Select(clients - {c}, scope)| == |Select(clients, scope)| - Bit(In(ConnOf(c), scope))
  {
    SelectAdd(clients - {c}, c, scope);
    assert clients - {c} + {c} == clients;
  }
}
