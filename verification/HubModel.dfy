/** The fan-out hub as a value: the two-way index between connections and buckets, and the clients' bounded queues. */
module HubModel {
  import opened Basics
  import opened Protocol

  const MAX_WS_CLIENTS_PER_BUCKET: nat := 200
  const MAX_WS_PENDING_MESSAGES: nat := 256

  /** `queue` is what waits in the client's channel; `open` is false once its receiver is gone. */
  datatype Client = Client(room: nat, buckets: set<u64>, queue: seq<DataUpdate>, open: bool)

  datatype Hub = Hub(nextConnId: u64, connections: map<u64, Client>, buckets: map<u64, set<u64>>)

  const EMPTY_HUB := Hub(1, map[], map[])

  function Subscribers(h: Hub, b: u64): set<u64> {
    if b in h.buckets then h.buckets[b] else {}
  }

  /** The id counter saturates. */
  function Allocate(h: Hub): Hub {
    h.(nextConnId := if h.nextConnId < U64_MAX then h.nextConnId + 1 else U64_MAX)
  }

  predicate Full(h: Hub, conn: u64, b: u64) {
    |Subscribers(h, b)| >= MAX_WS_CLIENTS_PER_BUCKET && conn !in Subscribers(h, b)
  }

  predicate Rejects(h: Hub, conn: u64, allowed: set<u64>) {
    exists b :: b in allowed && Full(h, conn, b)
  }

  /** The bucket lists after `conn` has been added to those in `visited`. */
  function ListedUnder(buckets: map<u64, set<u64>>, conn: u64, visited: set<u64>): map<u64, set<u64>> {
    map b | b in buckets.Keys + visited ::
      if b in visited then (if b in buckets then buckets[b] else {}) + {conn} else buckets[b]
  }

  function AddClient(h: Hub, conn: u64, room: nat, allowed: set<u64>): Hub {
    h.(connections := h.connections[conn := Client(room, allowed, [], true)],
       buckets := ListedUnder(h.buckets, conn, allowed))
  }

  /** The bucket lists after `conn` has been taken off those in `visited`; a list that runs empty disappears. */
  function Unlisted(buckets: map<u64, set<u64>>, conn: u64, visited: set<u64>): map<u64, set<u64>> {
    map b | b in buckets && !(b in visited && buckets[b] - {conn} == {}) ::
      if b in visited then buckets[b] - {conn} else buckets[b]
  }

  function RemoveClient(h: Hub, conn: u64): Hub {
    if conn !in h.connections then h
    else h.(connections := h.connections - {conn}, buckets := Unlisted(h.buckets, conn, h.connections[conn].buckets))
  }

  predicate CanTake(c: Client) {
    c.open && |c.queue| < MAX_WS_PENDING_MESSAGES
  }

  function Enqueue(c: Client, u: DataUpdate): Client {
    c.(queue := c.queue + [u])
  }

  /** Send to one client; a full or closed queue drops the client. */
  function Send(h: Hub, conn: u64, u: DataUpdate): Hub {
    if conn in h.connections && CanTake(h.connections[conn])
    then h.(connections := h.connections[conn := Enqueue(h.connections[conn], u)])
    else RemoveClient(h, conn)
  }

  predicate Dropped(h: Hub, visited: set<u64>, c: u64) {
    c in visited && (c !in h.connections || !CanTake(h.connections[c]))
  }

  function Remaining(h: Hub, visited: set<u64>, b: u64): set<u64> {
    set c | c in Subscribers(h, b) && !Dropped(h, visited, c)
  }

  /** The hub after the recipients in `visited` have been served, whatever the order. */
  function Served(h: Hub, u: DataUpdate, visited: set<u64>): Hub {
    h.(connections := map c | c in h.connections && !Dropped(h, visited, c)
                            :: if c in visited then Enqueue(h.connections[c], u) else h.connections[c],
       buckets := map b | b in h.buckets && Remaining(h, visited, b) != {} :: Remaining(h, visited, b))
  }

  function BroadcastTo(h: Hub, u: DataUpdate): Hub {
    Served(h, u, Subscribers(h, u.bucket))
  }

  /** One message of the notification channel. */
  function Forward(h: Hub, m: ChannelMessage): Hub {
    match m
    case Broadcast(u) => BroadcastTo(h, u)
    case Targeted(conn, u) => Send(h, conn, u)
  }

  /** Messages of the channel, one after the other. */
  function ForwardAll(h: Hub, messages: seq<ChannelMessage>): Hub {
    if messages == [] then h else Forward(ForwardAll(h, messages[..|messages| - 1]), messages[|messages| - 1])
  }

  /** The buckets a connection is registered with: its claims, always bucket 0, never the reserved bucket. */
  function AllowedBuckets(claims: set<u64>, reserved: u64): set<u64> {
    (claims + {0}) - {reserved}
  }

  /** Allocation and registration under one lock; `None` when a bucket is full. */
  function Connect(h: Hub, room: nat, allowed: set<u64>): (Hub, Option<u64>) {
    var conn := h.nextConnId;
    var h' := Allocate(h);
    if Rejects(h', conn, allowed) then (h', None) else (AddClient(h', conn, room, allowed), Some(conn))
  }

  /** The client's side takes the oldest waiting message. */
  function Take(h: Hub, conn: u64): Hub {
    if conn in h.connections && h.connections[conn].queue != []
    then h.(connections := h.connections[conn := h.connections[conn].(queue := h.connections[conn].queue[1..])])
    else h
  }

  function Close(h: Hub, conn: u64): Hub {
    if conn in h.connections then h.(connections := h.connections[conn := h.connections[conn].(open := false)]) else h
  }

  // ---------- invariants ----------

  /** A connection is listed under a bucket exactly when the bucket is in its set. */
  ghost predicate Listed(h: Hub) {
    forall c: u64, b: u64 :: c in Subscribers(h, b) <==> c in h.connections && b in h.connections[c].buckets
  }

  /** No list is empty and none exceeds the cap. */
  ghost predicate Capped(h: Hub) {
    forall b :: b in h.buckets ==> h.buckets[b] != {} && |h.buckets[b]| <= MAX_WS_CLIENTS_PER_BUCKET
  }

  ghost predicate Indexed(h: Hub) {
    Listed(h) && Capped(h)
  }

  ghost predicate IdsBelowNext(h: Hub) {
    forall c :: c in h.connections ==> c < h.nextConnId
  }
}
