/** The hub object: its maps are updated in place, and each method is tied to the functions of HubModel. */
module Hub {
  import opened Basics
  import opened Protocol
  import opened HubModel
  import opened HubTheorems

  class WsHub {
    var nextConnId: u64
    var connections: map<u64, Client>
    var buckets: map<u64, set<u64>>

    ghost function View(): HubModel.Hub
      reads this
    {
      HubModel.Hub(nextConnId, connections, buckets)
    }

    ghost predicate Valid()
      reads this
    {
      Indexed(View())
    }

    constructor ()
      ensures Valid() && View() == EMPTY_HUB
    {
      nextConnId, connections, buckets := 1, map[], map[];
    }

    method AllocateConnectionId() returns (id: u64)
      modifies this`nextConnId
      ensures id == old(nextConnId) && View() == Allocate(old(View()))
    {
      id := nextConnId;
      nextConnId := if nextConnId < U64_MAX then nextConnId + 1 else U64_MAX;
    }

    method HasRoom(conn: u64, allowed: set<u64>) returns (ok: bool)
      ensures ok == !Rejects(View(), conn, allowed)
    {
      var todo := allowed;
      while todo != {}
        invariant todo <= allowed
        invariant forall b | b in allowed && b !in todo :: !Full(View(), conn, b)
      {
        var b :| b in todo;
        todo := todo - {b};
        if b in buckets && |buckets[b]| >= MAX_WS_CLIENTS_PER_BUCKET && conn !in buckets[b] {
          assert Full(View(), conn, b);
          return false;
        }
      }
      return true;
    }

    method List(conn: u64, allowed: set<u64>)
      modifies this`buckets
      ensures buckets == ListedUnder(old(buckets), conn, allowed)
    {
      var todo := allowed;
      while todo != {}
        invariant todo <= allowed
        invariant buckets == ListedUnder(old(buckets), conn, allowed - todo)
      {
        var b :| b in todo;
        todo := todo - {b};
        assert allowed - todo == (allowed - (todo + {b})) + {b};
        buckets := buckets[b := (if b in buckets then buckets[b] else {}) + {conn}];
      }
      assert allowed - todo == allowed;
    }

    /** The caps are checked for every bucket before anything changes, so a rejected client leaves no trace. */
    method AddClient(conn: u64, room: nat, allowed: set<u64>) returns (ok: bool)
      modifies this
      ensures ok == !Rejects(old(View()), conn, allowed)
      ensures ok ==> connections == old(connections)[conn := Client(room, allowed, [], true)]
      ensures View() == if ok then HubModel.AddClient(old(View()), conn, room, allowed) else old(View())
      ensures old(Valid()) && (conn in old(connections) ==> old(connections)[conn].buckets <= allowed) ==> Valid()
    {
      ok := HasRoom(conn, allowed);
      if !ok { return; }
      if Indexed(View()) { AddClientIndex(View(), conn, room, allowed); }
      connections := connections[conn := Client(room, allowed, [], true)];
      List(conn, allowed);
    }

    method GetClientRoomId(conn: u64) returns (room: Option<nat>)
      ensures room == if conn in connections then Some(connections[conn].room) else None
    {
      if conn in connections { return Some(connections[conn].room); }
      return None;
    }

    method RemoveClient(conn: u64)
      modifies this
      ensures View() == HubModel.RemoveClient(old(View()), conn)
      ensures old(Valid()) ==> Valid()
    {
      if Indexed(View()) { RemoveClientIndex(View(), conn); }
      if conn !in connections { return; }
      var mine := connections[conn].buckets;
      connections := connections - {conn};
      var todo := mine;
      while todo != {}
        invariant todo <= mine && nextConnId == old(nextConnId) && connections == old(connections) - {conn}
        invariant buckets == Unlisted(old(buckets), conn, mine - todo)
      {
        var b :| b in todo;
        todo := todo - {b};
        assert mine - todo == (mine - (todo + {b})) + {b};
        if b in buckets {
          var rest := buckets[b] - {conn};
          if rest == {} {
            buckets := buckets - {b};
          } else {
            buckets := buckets[b := rest];
          }
        }
      }
      assert mine - todo == mine;
    }

    /** True when the client is gone afterwards. */
    method SendTargetedUpdate(conn: u64, update: DataUpdate) returns (gone: bool)
      modifies this
      ensures View() == Send(old(View()), conn, update)
      ensures gone == (conn !in connections)
      ensures old(Valid()) ==> Valid()
    {
      if Indexed(View()) { SendOk(View(), conn, update); }
      if conn !in connections {
        RemoveClient(conn);
        return true;
      }
      var client := connections[conn];
      if !client.open || |client.queue| >= MAX_WS_PENDING_MESSAGES {
        RemoveClient(conn);
        return true;
      }
      connections := connections[conn := client.(queue := client.queue + [update])];
      return false;
    }

    /** Clients are removed while the loop runs over a copy of the recipients, visited in any order. */
    method BroadcastUpdate(update: DataUpdate)
      requires Valid()
      modifies this
      ensures Valid() && View() == BroadcastTo(old(View()), update)
    {
      var recipients := if update.bucket in buckets then buckets[update.bucket] else {};
      var todo := recipients;
      ServeNobody(View(), update);
      assert recipients - todo == {};
      while todo != {}
        invariant todo <= recipients && Valid()
        invariant View() == Served(old(View()), update, recipients - todo)
      {
        var conn :| conn in todo;
        ServeOneMore(old(View()), update, recipients - todo, conn);
        assert recipients - todo + {conn} == recipients - (todo - {conn});
        todo := todo - {conn};
        var _ := SendTargetedUpdate(conn, update);
      }
      assert recipients - todo == recipients;
    }

    /**
     The forwarder handles the channel's messages one by one, in order. A client gets all the messages that concern it
     or is gone; it stays exactly when there are none, or its receiver is open and its queue has room for all of them.
     */
    method RunForwarder(messages: seq<ChannelMessage>)
      requires Valid()
      modifies this
      ensures Valid() && View() == ForwardAll(old(View()), messages)
      ensures nextConnId == old(nextConnId)
      ensures forall c :: c in connections <==>
                && c in old(connections)
                && var news := Relevant(messages, c, old(connections)[c].buckets);
                   news == [] || (old(connections)[c].open && |old(connections)[c].queue| + |news| <= 256)
      ensures forall c :: c in connections ==>
                var before := old(connections)[c];
                connections[c] == before.(queue := before.queue + Relevant(messages, c, before.buckets))
    {
      ForwardAllExact(View(), messages);
      for i := 0 to |messages|
        invariant Valid() && View() == ForwardAll(old(View()), messages[..i])
      {
        assert messages[..i + 1][..|messages[..i + 1]| - 1] == messages[..i];
        match messages[i]
        case Broadcast(update) => BroadcastUpdate(update);
        case Targeted(conn, update) => var _ := SendTargetedUpdate(conn, update);
      }
      assert messages[..|messages|] == messages;
    }

    /** Registration of an authenticated connection: id and index entry under one lock. */
    method Register(room: nat, claims: set<u64>, reserved: u64) returns (conn: Option<u64>)
      requires Valid()
      modifies this
      ensures (View(), conn) == Connect(old(View()), room, AllowedBuckets(claims, reserved))
      ensures conn.Some? ==>
                && conn.value == old(nextConnId) && conn.value in connections
                && connections[conn.value] == Client(room, claims + {0} - {reserved}, [], true)
      ensures old(nextConnId) !in old(connections) ==> Valid()
    {
      var allowed := claims + {0};
      allowed := allowed - {reserved};
      QueuesDoNotIndex(View(), Allocate(View()));
      var id := AllocateConnectionId();
      var ok := AddClient(id, room, allowed);
      conn := if ok then Some(id) else None;
    }
  }

  lemma ServeNobody(h: HubModel.Hub, u: DataUpdate)
    requires Indexed(h)
    ensures Served(h, u, {}) == h
  {
    assert forall b :: Remaining(h, {}, b) == Subscribers(h, b);
    assert Served(h, u, {}).connections == h.connections;
    assert Served(h, u, {}).buckets == h.buckets;
  }
}
