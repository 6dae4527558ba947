/** Index consistency, the effect of a broadcast, and gap-free delivery to every client still registered. */
module HubTheorems {
  import opened Basics
  import opened Protocol
  import opened HubModel
  import opened RoomModel

  // ---------- the index ----------

  lemma SmallerSet<T>(a: set<T>, b: set<T>)
    requires a <= b
    ensures |a| <= |b|
  {
    assert b == a + (b - a);
  }

  lemma AddClientLists(h: Hub, conn: u64, room: nat, allowed: set<u64>)
    ensures forall b: u64 :: Subscribers(AddClient(h, conn, room, allowed), b) ==
                             if b in allowed then Subscribers(h, b) + {conn} else Subscribers(h, b)
  {
  }

  lemma AddClientKeepsCap(h: Hub, conn: u64, room: nat, allowed: set<u64>)
    requires Capped(h) && !Rejects(h, conn, allowed)
    ensures Capped(AddClient(h, conn, room, allowed))
  {
  }

  lemma AddClientListed(h: Hub, conn: u64, room: nat, allowed: set<u64>)
    requires Listed(h)
    requires conn in h.connections ==> h.connections[conn].buckets <= allowed
    ensures Listed(AddClient(h, conn, room, allowed))
  {
    var h' := AddClient(h, conn, room, allowed);
    AddClientLists(h, conn, room, allowed);
    forall c: u64, b: u64
      ensures c in Subscribers(h', b) <==> c in h'.connections && b in h'.connections[c].buckets
    {
      assert c in Subscribers(h, b) <==> c in h.connections && b in h.connections[c].buckets;
    }
  }

  /**
   Registering keeps the index exactly when the id is new, or was registered for no bucket outside the new set:
   the old entry is replaced without being taken off its buckets first.
   */
  lemma AddClientIndex(h: Hub, conn: u64, room: nat, allowed: set<u64>)
    requires Indexed(h) && !Rejects(h, conn, allowed)
    ensures Indexed(AddClient(h, conn, room, allowed)) <==>
            (conn in h.connections ==> h.connections[conn].buckets <= allowed)
  {
    var h' := AddClient(h, conn, room, allowed);
    AddClientKeepsCap(h, conn, room, allowed);
    if conn in h.connections && !(h.connections[conn].buckets <= allowed) {
      var b :| b in h.connections[conn].buckets && b !in allowed;
      AddClientLists(h, conn, room, allowed);
      assert conn in Subscribers(h', b) && b !in h'.connections[conn].buckets;
    } else {
      AddClientListed(h, conn, room, allowed);
    }
  }

  lemma RemoveClientLists(h: Hub, conn: u64)
    requires Listed(h)
    ensures forall b: u64 :: Subscribers(RemoveClient(h, conn), b) == Subscribers(h, b) - {conn}
  {
  }

  lemma RemoveClientCapped(h: Hub, conn: u64)
    requires Indexed(h)
    ensures Capped(RemoveClient(h, conn))
  {
  }

  lemma RemoveClientIndex(h: Hub, conn: u64)
    requires Indexed(h)
    ensures Indexed(RemoveClient(h, conn))
    ensures forall b: u64 :: Subscribers(RemoveClient(h, conn), b) == Subscribers(h, b) - {conn}
  {
    var h' := RemoveClient(h, conn);
    RemoveClientLists(h, conn);
    RemoveClientCapped(h, conn);
    forall c: u64, b: u64
      ensures c in Subscribers(h', b) <==> c in h'.connections && b in h'.connections[c].buckets
    {
      assert c in Subscribers(h, b) <==> c in h.connections && b in h.connections[c].buckets;
      assert Subscribers(h', b) == Subscribers(h, b) - {conn};
    }
  }

  lemma ServedLists(h: Hub, u: DataUpdate, visited: set<u64>)
    ensures forall b: u64 :: Subscribers(Served(h, u, visited), b) == Remaining(h, visited, b)
  {
  }

  lemma ServedIndex(h: Hub, u: DataUpdate, visited: set<u64>)
    requires Indexed(h)
    ensures Indexed(Served(h, u, visited))
  {
    var h' := Served(h, u, visited);
    ServedLists(h, u, visited);
    forall c: u64, b: u64
      ensures c in Subscribers(h', b) <==> c in h'.connections && b in h'.connections[c].buckets
    {
      assert c in Remaining(h, visited, b) <==> c in Subscribers(h, b) && !Dropped(h, visited, c);
    }
    forall b | b in h'.buckets
      ensures h'.buckets[b] != {} && |h'.buckets[b]| <= MAX_WS_CLIENTS_PER_BUCKET
    {
      SmallerSet(Remaining(h, visited, b), h.buckets[b]);
    }
  }

  lemma RemainingMore(h: Hub, visited: set<u64>, c: u64, b: u64)
    requires c in h.connections && c !in visited
    ensures Remaining(h, visited + {c}, b) ==
            if CanTake(h.connections[c]) then Remaining(h, visited, b) else Remaining(h, visited, b) - {c}
  {
  }

  lemma ServeTaker(h: Hub, u: DataUpdate, visited: set<u64>, c: u64)
    requires c in h.connections && c !in visited && CanTake(h.connections[c])
    ensures Send(Served(h, u, visited), c, u) == Served(h, u, visited + {c})
  {
    var mid, next := Served(h, u, visited), Served(h, u, visited + {c});
    forall b: u64
      ensures Remaining(h, visited + {c}, b) == Remaining(h, visited, b)
    {
      RemainingMore(h, visited, c, b);
    }
    assert next.buckets == mid.buckets;
    assert forall x :: Dropped(h, visited + {c}, x) <==> Dropped(h, visited, x);
    assert mid.connections[c] == h.connections[c];
    assert next.connections == mid.connections[c := Enqueue(h.connections[c], u)];
  }

  lemma ServeDropped(h: Hub, u: DataUpdate, visited: set<u64>, c: u64)
    requires Indexed(h) && c in h.connections && c !in visited && !CanTake(h.connections[c])
    ensures Send(Served(h, u, visited), c, u) == Served(h, u, visited + {c})
  {
    var mid, next := Served(h, u, visited), Served(h, u, visited + {c});
    assert mid.connections[c] == h.connections[c];
    assert forall x :: Dropped(h, visited + {c}, x) <==> Dropped(h, visited, x) || x == c;
    assert next.connections == mid.connections - {c};
    ServedIndex(h, u, visited);
    ServedIndex(h, u, visited + {c});
    RemoveClientIndex(mid, c);
    SameHub(RemoveClient(mid, c), next);
  }

  /** Serving one more recipient: sending to it on top of the others already served, in whatever order. */
  lemma ServeOneMore(h: Hub, u: DataUpdate, visited: set<u64>, c: u64)
    requires Indexed(h) && c in h.connections && c !in visited
    ensures Send(Served(h, u, visited), c, u) == Served(h, u, visited + {c})
  {
    if CanTake(h.connections[c]) {
      ServeTaker(h, u, visited, c);
    } else {
      ServeDropped(h, u, visited, c);
    }
  }

  lemma SameHub(a: Hub, b: Hub)
    requires Indexed(a) && Indexed(b) && a.nextConnId == b.nextConnId && a.connections == b.connections
    ensures a == b
  {
    forall k: u64
      ensures Subscribers(a, k) == Subscribers(b, k)
      ensures k in a.buckets <==> Subscribers(a, k) != {}
      ensures k in b.buckets <==> Subscribers(b, k) != {}
    {
      forall c: u64
        ensures c in Subscribers(a, k) <==> c in Subscribers(b, k)
      {
        assert c in Subscribers(a, k) <==> c in a.connections && k in a.connections[c].buckets;
        assert c in Subscribers(b, k) <==> c in b.connections && k in b.connections[c].buckets;
      }
    }
    assert a.buckets.Keys == b.buckets.Keys;
    assert forall k :: k in a.buckets ==> a.buckets[k] == Subscribers(a, k) && b.buckets[k] == Subscribers(b, k);
  }

  /**
   After a broadcast every prior subscriber of the bucket either has the event appended exactly once or is gone
   from both maps; every other client's queue and index entries are as before.
   */
  lemma BroadcastEffect(h: Hub, u: DataUpdate)
    requires Indexed(h)
    ensures var h' := BroadcastTo(h, u);
      && Indexed(h') && h'.connections.Keys <= h.connections.Keys
      && (forall c :: c in Subscribers(h, u.bucket) ==>
            if CanTake(h.connections[c]) then c in h'.connections && h'.connections[c] == Enqueue(h.connections[c], u)
            else c !in h'.connections && forall b: u64 :: c !in Subscribers(h', b))
      && (forall c :: c in h.connections && c !in Subscribers(h, u.bucket) ==>
            c in h'.connections && h'.connections[c] == h.connections[c])
      && (forall c, b: u64 :: c in h'.connections ==> (c in Subscribers(h', b) <==> c in Subscribers(h, b)))
  {
    ServedIndex(h, u, Subscribers(h, u.bucket));
    ServedLists(h, u, Subscribers(h, u.bucket));
  }

  /** With every connection registered for bucket 0, its list bounds the number of connections in the whole hub. */
  lemma AtMost200Connections(h: Hub)
    requires Indexed(h) && forall c :: c in h.connections ==> 0 in h.connections[c].buckets
    ensures |h.connections| <= 200
  {
    assert h.connections.Keys <= Subscribers(h, 0);
    SmallerSet(h.connections.Keys, Subscribers(h, 0));
    assert |h.connections| == |h.connections.Keys|;
  }

  // ---------- runs ----------

  /** What a connection's token said when its id was handed out. */
  datatype Token = Token(room: nat, claims: set<u64>)

  /** The hub with its history: what the forwarder has handled, where each client joined and as whom, what it took. */
  datatype Trace = Trace(
    hub: Hub,
    log: seq<ChannelMessage>,
    joined: map<u64, nat>,
    tokens: map<u64, Token>,
    taken: map<u64, seq<DataUpdate>>)

  datatype HubStep =
    | ConnectStep(room: nat, claims: set<u64>)
    | DisconnectStep(conn: u64)
    | ForwardStep(message: ChannelMessage)
    | TakeStep(conn: u64)
    | CloseStep(conn: u64)

  function DoHub(t: Trace, step: HubStep): Trace {
    match step
    case ConnectStep(room, claims) =>
      var (hub, conn) := Connect(t.hub, room, AllowedBuckets(claims, SERVER_ONLY_BUCKET_ID));
      if conn.None? then t.(hub := hub)
      else t.(hub := hub, joined := t.joined[conn.value := |t.log|], taken := t.taken[conn.value := []],
              tokens := t.tokens[conn.value := Token(room, claims)])
    case DisconnectStep(c) => t.(hub := RemoveClient(t.hub, c))
    case ForwardStep(m) => t.(hub := Forward(t.hub, m), log := t.log + [m])
    case TakeStep(c) =>
      if c in t.hub.connections && c in t.taken && t.hub.connections[c].queue != []
      then t.(hub := Take(t.hub, c), taken := t.taken[c := t.taken[c] + [t.hub.connections[c].queue[0]]])
      else t
    case CloseStep(c) => t.(hub := Close(t.hub, c))
  }

  function RunHub(steps: seq<HubStep>): Trace {
    if steps == [] then Trace(EMPTY_HUB, [], map[], map[], map[])
    else DoHub(RunHub(steps[..|steps| - 1]), steps[|steps| - 1])
  }

  /** The run hands out fewer ids than there are, so the saturating counter never repeats one. */
  ghost predicate FreshIds(steps: seq<HubStep>) {
    forall i | 0 <= i < |steps| && steps[i].ConnectStep? :: RunHub(steps[..i]).hub.nextConnId < U64_MAX
  }

  /** What a client registered for `buckets` must receive of a stretch of the forwarder's log. */
  function Relevant(log: seq<ChannelMessage>, c: u64, buckets: set<u64>): seq<DataUpdate> {
    if log == [] then []
    else
      var before, m := Relevant(log[..|log| - 1], c, buckets), log[|log| - 1];
      if Concerns(m, c, buckets) then before + [m.update] else before
  }

  predicate Concerns(m: ChannelMessage, c: u64, buckets: set<u64>) {
    match m
    case Broadcast(u) => u.bucket in buckets
    case Targeted(conn, _) => conn == c
  }

  ghost predicate Delivered(t: Trace, c: u64) {
    c in t.hub.connections ==>
      && c in t.joined && c in t.taken && t.joined[c] <= |t.log|
      && t.taken[c] + t.hub.connections[c].queue == Relevant(t.log[t.joined[c]..], c, t.hub.connections[c].buckets)
  }

  /** Registered for the token's room, and for exactly its claims and bucket 0, but never for the reserved bucket. */
  ghost predicate AsTokenSays(client: Client, token: Token) {
    && client.room == token.room
    && forall b: u64 :: b in client.buckets <==> (b in token.claims || b == 0) && b != 0xFFFF_FFFF_FFFF_FFFF
  }

  ghost predicate HubOk(t: Trace) {
    && Indexed(t.hub)
    && (forall c :: c in t.hub.connections ==> c in t.tokens && AsTokenSays(t.hub.connections[c], t.tokens[c]))
    && (forall c: u64 :: Delivered(t, c))
  }

  lemma RelevantGrows(log: seq<ChannelMessage>, from: nat, m: ChannelMessage, c: u64, buckets: set<u64>)
    requires from <= |log|
    ensures Relevant((log + [m])[from..], c, buckets) ==
            Relevant(log[from..], c, buckets) + if Concerns(m, c, buckets) then [m.update] else []
  {
    var longer := (log + [m])[from..];
    assert longer == log[from..] + [m] && longer[..|longer| - 1] == log[from..];
  }

  lemma ForwardOk(t: Trace, m: ChannelMessage)
    requires HubOk(t)
    ensures HubOk(DoHub(t, ForwardStep(m)))
  {
    var t' := DoHub(t, ForwardStep(m));
    match m {
      case Broadcast(u) => BroadcastEffect(t.hub, u);
      case Targeted(conn, u) => SendOk(t.hub, conn, u);
    }
    forall c: u64
      ensures Delivered(t', c)
    {
      if c in t'.hub.connections {
        assert Delivered(t, c);
        var client := t.hub.connections[c];
        assert t'.hub.connections[c] == if Concerns(m, c, client.buckets) then Enqueue(client, m.update) else client;
        RelevantGrows(t.log, t.joined[c], m, c, client.buckets);
        assert t.taken[c] + (client.queue + [m.update]) == t.taken[c] + client.queue + [m.update];
      }
    }
  }

  lemma SendOk(h: Hub, conn: u64, u: DataUpdate)
    requires Indexed(h)
    ensures var h' := Send(h, conn, u);
      && Indexed(h') && h'.nextConnId == h.nextConnId
      && (conn in h'.connections <==> conn in h.connections && CanTake(h.connections[conn]))
      && (conn in h'.connections ==> h'.connections[conn] == Enqueue(h.connections[conn], u))
      && (forall c :: c != conn ==> (c in h'.connections <==> c in h.connections))
      && (forall c :: c in h'.connections && c != conn ==> h'.connections[c] == h.connections[c])
  {
    if conn in h.connections && CanTake(h.connections[conn]) {
      QueuesDoNotIndex(h, Send(h, conn, u));
    } else {
      RemoveClientIndex(h, conn);
    }
  }

  /** Changing queues, receivers or the id counter leaves the index alone. */
  lemma QueuesDoNotIndex(h: Hub, h': Hub)
    requires Indexed(h) && h'.buckets == h.buckets && h'.connections.Keys == h.connections.Keys
    requires forall c :: c in h.connections ==> h'.connections[c].buckets == h.connections[c].buckets
    ensures Indexed(h')
  {
    forall c: u64, b: u64
      ensures c in Subscribers(h', b) <==> c in h'.connections && b in h'.connections[c].buckets
    {
      assert c in Subscribers(h, b) <==> c in h.connections && b in h.connections[c].buckets;
    }
  }

  lemma ConnectOk(t: Trace, room: nat, claims: set<u64>)
    requires HubOk(t) && IdsBelowNext(t.hub) && t.hub.nextConnId < U64_MAX
    ensures HubOk(DoHub(t, ConnectStep(room, claims))) && IdsBelowNext(DoHub(t, ConnectStep(room, claims)).hub)
  {
    var t' := DoHub(t, ConnectStep(room, claims));
    var allowed, conn, h := AllowedBuckets(claims, SERVER_ONLY_BUCKET_ID), t.hub.nextConnId, Allocate(t.hub);
    QueuesDoNotIndex(t.hub, h);
    if !Rejects(h, conn, allowed) {
      AddClientIndex(h, conn, room, allowed);
      assert t.log[|t.log|..] == [];
    }
    forall c: u64
      ensures Delivered(t', c)
    {
      assert Delivered(t, c);
    }
  }

  lemma HubStepOk(t: Trace, step: HubStep)
    requires HubOk(t) && IdsBelowNext(t.hub)
    requires step.ConnectStep? ==> t.hub.nextConnId < U64_MAX
    ensures HubOk(DoHub(t, step)) && IdsBelowNext(DoHub(t, step).hub)
  {
    match step
    case ConnectStep(room, claims) => ConnectOk(t, room, claims);
    case DisconnectStep(c) =>
      RemoveClientIndex(t.hub, c);
      SameDelivered(t, DoHub(t, step));
    case ForwardStep(m) => ForwardOk(t, m);
    case TakeStep(c) => TakeOk(t, c);
    case CloseStep(c) =>
      QueuesDoNotIndex(t.hub, DoHub(t, step).hub);
      SameDelivered(t, DoHub(t, step));
  }

  lemma SameDelivered(t: Trace, t': Trace)
    requires HubOk(t) && t'.log == t.log && t'.joined == t.joined && t'.taken == t.taken && t'.tokens == t.tokens
    requires forall c :: c in t'.hub.connections ==> c in t.hub.connections
    requires forall c :: c in t'.hub.connections ==>
               && t'.hub.connections[c].queue == t.hub.connections[c].queue
               && t'.hub.connections[c].buckets == t.hub.connections[c].buckets
    ensures forall c: u64 :: Delivered(t', c)
  {
    forall c: u64
      ensures Delivered(t', c)
    {
      assert Delivered(t, c);
    }
  }

  lemma TakeOk(t: Trace, c: u64)
    requires HubOk(t) && IdsBelowNext(t.hub)
    ensures HubOk(DoHub(t, TakeStep(c))) && IdsBelowNext(DoHub(t, TakeStep(c)).hub)
  {
    var t' := DoHub(t, TakeStep(c));
    assert Delivered(t, c);
    if t' != t {
      var queue := t.hub.connections[c].queue;
      assert t.taken[c] + queue == t.taken[c] + [queue[0]] + queue[1..];
      QueuesDoNotIndex(t.hub, t'.hub);
      forall x: u64
        ensures Delivered(t', x)
      {
        assert Delivered(t, x);
      }
    }
  }

  /** In every state reached with fresh ids the index is consistent and capped, and nobody has missed a message. */
  lemma {:induction false} HubAlwaysOk(steps: seq<HubStep>)
    requires FreshIds(steps)
    ensures HubOk(RunHub(steps)) && IdsBelowNext(RunHub(steps).hub)
    ensures |RunHub(steps).hub.connections| <= 200
  {
    if steps == [] {
      assert Indexed(EMPTY_HUB);
    } else {
      var init := steps[..|steps| - 1];
      assert forall i | 0 <= i < |init| :: init[i] == steps[i] && init[..i] == steps[..i];
      assert steps[|steps| - 1].ConnectStep? ==> RunHub(steps[..|steps| - 1]).hub.nextConnId < U64_MAX;
      HubAlwaysOk(init);
      HubStepOk(RunHub(init), steps[|steps| - 1]);
    }
    AtMost200Connections(RunHub(steps).hub);
  }

  /** A connection belongs to the room of its token and hears of the buckets of its token, in every reachable state. */
  lemma TokenIsKept(steps: seq<HubStep>, c: u64)
    requires FreshIds(steps) && c in RunHub(steps).hub.connections
    ensures c in RunHub(steps).tokens && AsTokenSays(RunHub(steps).hub.connections[c], RunHub(steps).tokens[c])
  {
    HubAlwaysOk(steps);
  }

  /** Registration, outcome by outcome: refused exactly when a bucket of the token already has 200 clients. */
  lemma ConnectOutcome(h: Hub, room: nat, claims: set<u64>)
    requires Indexed(h) && h.nextConnId !in h.connections
    ensures var (h', conn) := Connect(h, room, AllowedBuckets(claims, SERVER_ONLY_BUCKET_ID));
      && (conn.None? <==> exists b :: b in AllowedBuckets(claims, SERVER_ONLY_BUCKET_ID) && |Subscribers(h, b)| == 200)
      && (conn.None? ==> h'.connections == h.connections && h'.buckets == h.buckets)
      && (conn.Some? ==>
            && conn.value == h.nextConnId && h'.connections.Keys == h.connections.Keys + {conn.value}
            && AsTokenSays(h'.connections[conn.value], Token(room, claims))
            && h'.connections[conn.value].queue == [] && h'.connections[conn.value].open
            && forall c :: c in h.connections ==> h'.connections[c] == h.connections[c])
      && h'.nextConnId == if h.nextConnId < 0xFFFF_FFFF_FFFF_FFFF then h.nextConnId + 1 else h.nextConnId
  {
    var conn, allowed := h.nextConnId, AllowedBuckets(claims, SERVER_ONLY_BUCKET_ID);
    forall b | b in allowed
      ensures Full(Allocate(h), conn, b) <==> |Subscribers(h, b)| == 200
    {
      assert conn in Subscribers(h, b) ==> conn in h.connections;
    }
  }

  // ---------- any number of messages ----------

  lemma ForwardExact(h: Hub, m: ChannelMessage)
    requires Indexed(h)
    ensures var h' := Forward(h, m);
      && Indexed(h') && h'.nextConnId == h.nextConnId
      && (forall c :: c in h'.connections <==>
            c in h.connections && (Concerns(m, c, h.connections[c].buckets) ==> CanTake(h.connections[c])))
      && (forall c :: c in h'.connections ==>
            h'.connections[c] ==
            if Concerns(m, c, h.connections[c].buckets) then Enqueue(h.connections[c], m.update) else h.connections[c])
  {
    match m
    case Broadcast(u) =>
      BroadcastEffect(h, u);
      assert forall c: u64 :: c in Subscribers(h, u.bucket) <==>
                              c in h.connections && u.bucket in h.connections[c].buckets;
    case Targeted(conn, u) =>
      SendOk(h, conn, u);
  }

  /** The client has room for all of them. */
  predicate Takes(client: Client, news: seq<DataUpdate>) {
    news == [] || (client.open && |client.queue| + |news| <= 256)
  }

  function WithNews(client: Client, news: seq<DataUpdate>): Client {
    client.(queue := client.queue + news)
  }

  /** A client at the end of the messages: all that concern it are queued in order, or it is gone. */
  lemma {:induction false} ForwardAllExact(h: Hub, messages: seq<ChannelMessage>)
    requires Indexed(h)
    ensures var h' := ForwardAll(h, messages);
      && Indexed(h') && h'.nextConnId == h.nextConnId
      && (forall c :: c in h'.connections <==>
            c in h.connections && Takes(h.connections[c], Relevant(messages, c, h.connections[c].buckets)))
      && (forall c :: c in h'.connections ==>
            h'.connections[c] == WithNews(h.connections[c], Relevant(messages, c, h.connections[c].buckets)))
  {
    if messages == [] {
      assert forall c :: c in h.connections ==> WithNews(h.connections[c], []) == h.connections[c];
    } else {
      var init, m := messages[..|messages| - 1], messages[|messages| - 1];
      ForwardAllExact(h, init);
      ForwardExact(ForwardAll(h, init), m);
    }
  }

  function Forwards(messages: seq<ChannelMessage>): seq<HubStep> {
    seq(|messages|, i requires 0 <= i < |messages| => ForwardStep(messages[i]))
  }

  lemma OneMoreStep(steps: seq<HubStep>, step: HubStep)
    ensures RunHub(steps + [step]) == DoHub(RunHub(steps), step)
  {
    assert (steps + [step])[..|steps|] == steps;
  }

  /** The steps of the run are the forwarder's own loop: messages in a row are forwarded as the loop does. */
  lemma {:induction false} ForwardStepsInARow(steps: seq<HubStep>, messages: seq<ChannelMessage>)
    ensures RunHub(steps + Forwards(messages)).hub == ForwardAll(RunHub(steps).hub, messages)
    ensures RunHub(steps + Forwards(messages)).log == RunHub(steps).log + messages
  {
    if messages == [] {
      assert steps + Forwards(messages) == steps;
    } else {
      var init, m := messages[..|messages| - 1], messages[|messages| - 1];
      ForwardStepsInARow(steps, init);
      ForwardsOneMore(steps, init, m);
      OneMoreForward(RunHub(steps).hub, init, m, RunHub(steps + Forwards(init)), RunHub(steps + Forwards(init + [m])));
      assert messages == init + [m];
    }
  }

  lemma ForwardsOneMore(steps: seq<HubStep>, init: seq<ChannelMessage>, m: ChannelMessage)
    ensures RunHub(steps + Forwards(init + [m])) == DoHub(RunHub(steps + Forwards(init)), ForwardStep(m))
  {
    assert Forwards(init + [m]) == Forwards(init) + [ForwardStep(m)];
    assert steps + (Forwards(init) + [ForwardStep(m)]) == steps + Forwards(init) + [ForwardStep(m)];
    OneMoreStep(steps + Forwards(init), ForwardStep(m));
  }

  lemma OneMoreForward(h: Hub, init: seq<ChannelMessage>, m: ChannelMessage, t: Trace, t': Trace)
    requires t.hub == ForwardAll(h, init) && t' == DoHub(t, ForwardStep(m))
    ensures t'.hub == ForwardAll(h, init + [m]) && t'.log == t.log + [m]
  {
    assert (init + [m])[..|init|] == init;
  }

  /**
   No gaps: for every connection still in the hub, what it has taken followed by what waits in its queue is, in
   order and exactly once, what the forwarder has handled for it since it was added.
   */
  lemma NoGaps(steps: seq<HubStep>, c: u64)
    requires FreshIds(steps) && c in RunHub(steps).hub.connections
    ensures var t := RunHub(steps);
      && c in t.joined && c in t.taken && t.joined[c] <= |t.log|
      && t.taken[c] + t.hub.connections[c].queue == Relevant(t.log[t.joined[c]..], c, t.hub.connections[c].buckets)
  {
    HubAlwaysOk(steps);
    assert Delivered(RunHub(steps), c);
  }

  /**
   While every id in use lies below the counter, the id handed out is unused, the last one included. The next id is
   unused as well if and only if the counter has not saturated: from then on the last id is handed out again and again.
   */
  lemma AllocationFresh(h: Hub, room: nat, allowed: set<u64>)
    requires IdsBelowNext(h) && !Rejects(Allocate(h), h.nextConnId, allowed)
    ensures var (h', conn) := Connect(h, room, allowed);
      && conn.Some? && conn.value !in h.connections && conn.value in h'.connections
      && (h'.nextConnId !in h'.connections <==> h.nextConnId < U64_MAX)
      && (IdsBelowNext(h') <==> h.nextConnId < U64_MAX)
  {
    var h' := Connect(h, room, allowed).0;
    assert h.nextConnId in h'.connections;
  }
}
