/** Which overlapping writes do harm, and that every history without one converges. */
module SyncTheorems {
  import opened Basics
  import opened Protocol
  import opened RoomModel
  import opened RoomTheorems
  import opened HubModel
  import opened HubTheorems
  import opened SyncModel
  import Kernel

  // ---------- which writes do harm ----------

  predicate About(u: DataUpdate, b: u64, k: string) {
    u.bucket == b && u.key == k
  }

  /**
   A write of `v` overtakes another write to its key, and a client can be left with what the other one wrote. One that
   has not read the counter yet may still read a higher one. One that has read it loses to `v` wherever `v` is heard,
   but a client that joins late does not hear of a null, because initial sync skips tombstones.
   */
  predicate Overtaken(other: Writer, v: Value) {
    match other
    case Written(u, _) => u.value != Some(v)
    case Stamped(u, _) => u.value != Some(Null) && v == Null
  }

  /** The write does harm if it starts now; no client ever sees the reserved bucket. */
  ghost predicate Harms(s: Sync, b: u64, k: string, v: Value) {
    && b != SERVER_ONLY_BUCKET_ID
    && exists w :: w in s.writers && About(s.writers[w].update, b, k) && Overtaken(s.writers[w], v)
  }

  ghost predicate Harmless(s: Sync, step: SyncStep) {
    step.Write? && step.w !in s.writers ==> !Harms(s, step.bucket, step.key, step.value)
  }

  /** Connection ids are left to hand out, and of the events that nobody announces only bucket declarations happen. */
  predicate Plain(s: Sync, step: SyncStep) {
    match step
    case Join(_) => s.hub.nextConnId < U64_MAX
    case Happens(e) => e.BucketAdded?
    case _ => true
  }

  ghost predicate PlainRun(s: Sync, steps: seq<SyncStep>)
    decreases |steps|
  {
    steps != [] ==> Plain(s, steps[0]) && PlainRun(DoSync(s, steps[0]), steps[1..])
  }

  ghost predicate Orderly(s: Sync, steps: seq<SyncStep>)
    decreases |steps|
  {
    steps != [] ==> Plain(s, steps[0]) && Harmless(s, steps[0]) && Orderly(DoSync(s, steps[0]), steps[1..])
  }

  // ---------- room, hub and ids, whatever the writes do ----------

  ghost predicate HubSound(h: Hub) {
    && Indexed(h) && IdsBelowNext(h)
    && forall c :: c in h.connections ==> SERVER_ONLY_BUCKET_ID !in h.connections[c].buckets
  }

  /** Ids in use anywhere were handed out before. */
  ghost predicate IdsOk(s: Sync) {
    && (forall c :: c in s.phase ==> c < s.hub.nextConnId)
    && (forall m | m in s.channel :: m.Targeted? ==> m.conn < s.hub.nextConnId)
  }

  ghost predicate Base(s: Sync) {
    Versioned(s.room) && Idle(s.room) && HubSound(s.hub) && IdsOk(s)
  }

  lemma ConnectSound(h: Hub, claims: set<u64>)
    requires HubSound(h) && h.nextConnId < U64_MAX
    ensures HubSound(Connect(h, ROOM_ID, AllowedBuckets(claims, SERVER_ONLY_BUCKET_ID)).0)
  {
    var conn, allowed := h.nextConnId, AllowedBuckets(claims, SERVER_ONLY_BUCKET_ID);
    QueuesDoNotIndex(h, Allocate(h));
    if !Rejects(Allocate(h), conn, allowed) {
      AddClientIndex(Allocate(h), conn, ROOM_ID, allowed);
    }
  }

  lemma ForwardSound(h: Hub, m: ChannelMessage)
    requires HubSound(h)
    ensures HubSound(Forward(h, m)) && Forward(h, m).nextConnId == h.nextConnId
  {
    match m
    case Broadcast(u) => BroadcastEffect(h, u);
    case Targeted(conn, u) => SendOk(h, conn, u);
  }

  /** Removing clients, closing receivers and taking from queues. */
  lemma DepartSound(h: Hub, c: u64)
    requires HubSound(h)
    ensures HubSound(RemoveClient(h, c)) && HubSound(Close(h, c)) && HubSound(Take(h, c))
  {
    RemoveClientIndex(h, c);
    QueuesDoNotIndex(h, Close(h, c));
    QueuesDoNotIndex(h, Take(h, c));
  }

  lemma HubStepSound(s: Sync, step: SyncStep)
    requires HubSound(s.hub) && Plain(s, step)
    ensures HubSound(DoSync(s, step).hub) && s.hub.nextConnId <= DoSync(s, step).hub.nextConnId
  {
    match step
    case Join(claims) => ConnectSound(s.hub, claims);
    case ForwardOne => if s.channel != [] { ForwardSound(s.hub, s.channel[0]); }
    case TakeOne(c) => DepartSound(s.hub, c);
    case CloseReceiver(c) => DepartSound(s.hub, c);
    case Leave(c) => DepartSound(s.hub, c);
    case _ =>
  }

  lemma RoomStepSound(s: Sync, step: SyncStep)
    requires Versioned(s.room) && Idle(s.room) && Plain(s, step)
    ensures Versioned(DoSync(s, step).room) && Idle(DoSync(s, step).room)
  {
    match step
    case Write(_, b, k, v) => StepVersioned(s.room, Op(Set(b, k, v)));
    case Happens(e) => HappenVersioned(s.room, e);
    case _ =>
  }

  /** What a step adds to the phases and the channel. */
  lemma IdsStepOk(s: Sync, step: SyncStep)
    requires HubSound(s.hub) && IdsOk(s) && Plain(s, step)
    ensures IdsOk(DoSync(s, step))
  {
    HubStepSound(s, step);
    match step
    case ForwardOne => assert forall m | m in s.channel[(if s.channel == [] then 0 else 1)..] :: m in s.channel;
    case _ =>
  }

  lemma BaseStep(s: Sync, step: SyncStep)
    requires Base(s) && Plain(s, step)
    ensures Base(DoSync(s, step))
  {
    RoomStepSound(s, step);
    HubStepSound(s, step);
    IdsStepOk(s, step);
  }

  // ---------- what is on its way to a client ----------

  function Elements(updates: seq<DataUpdate>): set<DataUpdate> {
    set u | u in updates
  }

  function OnChannel(channel: seq<ChannelMessage>, c: u64, buckets: set<u64>): set<DataUpdate> {
    set m | m in channel && Concerns(m, c, buckets) :: m.update
  }

  function ToSend(phase: Phase): set<DataUpdate> {
    if phase.Sending? then Elements(phase.todo) else {}
  }

  function BeingWritten(writers: map<nat, Writer>, buckets: set<u64>): set<DataUpdate> {
    set w | w in writers && writers[w].update.bucket in buckets :: writers[w].update
  }

  predicate Registered(s: Sync, c: u64) {
    c in s.hub.connections && c in s.taken && c in s.phase
  }

  /** Everything a registered client has received or is going to receive, as things stand. */
  function Pipe(s: Sync, c: u64): set<DataUpdate>
    requires Registered(s, c)
  {
    var client := s.hub.connections[c];
    Elements(s.taken[c]) + Elements(client.queue) + OnChannel(s.channel, c, client.buckets) + ToSend(s.phase[c])
    + BeingWritten(s.writers, client.buckets)
  }

  /** The update is not from the future, and from the entry's version on it carries the entry's value. */
  predicate Fits(r: Room, u: DataUpdate) {
    var e := EntryAt(r, u.bucket, u.key);
    && e.Some? && u.value.Some? && u.counter <= r.counter
    && (u.counter < e.value.version || u.value.value == e.value.value)
  }

  predicate Current(r: Room, u: DataUpdate) {
    var e := EntryAt(r, u.bucket, u.key);
    e.Some? && u.value == Some(e.value.value) && u.counter >= e.value.version
  }

  ghost predicate Has(r: Room, updates: set<DataUpdate>, b: u64, k: string) {
    exists u :: u in updates && About(u, b, k) && Current(r, u)
  }

  /**
   A client that hears `u` also hears the current state of its key. It need not when that is a tombstone and `u` is a
   null itself, and it will, if the key is live and the room has not been collected for it yet.
   */
  ghost predicate Answered(r: Room, updates: set<DataUpdate>, u: DataUpdate, waiting: bool) {
    || Has(r, updates, u.bucket, u.key)
    || if Live(r, u.bucket, u.key) then waiting else u.value == Some(Null)
  }

  /** What holds between the room and the updates on their way to a client with these buckets. */
  ghost predicate Informed(r: Room, updates: set<DataUpdate>, buckets: set<u64>, phase: Phase) {
    && (phase.Waiting? ==> phase.requested == buckets)
    && (forall u :: u in updates ==> u.bucket in buckets && Fits(r, u))
    && (!phase.Aborted? ==> forall u :: u in updates ==> Answered(r, updates, u, phase.Waiting?))
    && (phase.Sending? || phase.Synced? ==>
          forall b: u64, k | b in buckets && Live(r, b, k) :: Has(r, updates, b, k))
  }

  ghost predicate ClientOk(s: Sync, c: u64) {
    c in s.hub.connections ==>
      Registered(s, c) && Informed(s.room, Pipe(s, c), s.hub.connections[c].buckets, s.phase[c])
  }

  /** One that has not read the counter holds the entry's value; a value overtaken by a tombstone is not held at all. */
  predicate WriterOk(r: Room, writer: Writer) {
    var u := writer.update;
    u.bucket != SERVER_ONLY_BUCKET_ID ==>
      && Fits(r, u)
      && (writer.Written? ==> u.value.value == EntryAt(r, u.bucket, u.key).value.value)
      && (u.value != Some(Null) ==> Live(r, u.bucket, u.key))
  }

  ghost predicate WritersOk(s: Sync) {
    forall w :: w in s.writers ==> WriterOk(s.room, s.writers[w])
  }

  ghost predicate CurrentWriter(s: Sync, b: u64, k: string) {
    exists w :: w in s.writers && About(s.writers[w].update, b, k) && Current(s.room, s.writers[w].update)
  }

  ghost predicate LaterCurrent(s: Sync, i: nat, b: u64, k: string) {
    exists j :: i <= j < |s.channel| && s.channel[j].Broadcast? && About(s.channel[j].update, b, k)
                && Current(s.room, s.channel[j].update)
  }

  /** The broadcast at `i` is followed by the tombstone of its key, or the writer of the tombstone is still at work. */
  ghost predicate Followed(s: Sync, i: nat, u: DataUpdate) {
    || u.value == Some(Null) || Live(s.room, u.bucket, u.key)
    || LaterCurrent(s, i, u.bucket, u.key) || CurrentWriter(s, u.bucket, u.key)
  }

  predicate Heard(m: ChannelMessage) {
    m.Broadcast? && m.update.bucket != SERVER_ONLY_BUCKET_ID
  }

  ghost predicate ChannelOk(s: Sync) {
    forall i | 0 <= i < |s.channel| && Heard(s.channel[i]) ::
      Fits(s.room, s.channel[i].update) && Followed(s, i, s.channel[i].update)
  }

  ghost predicate SyncOk(s: Sync) {
    Base(s) && WritersOk(s) && ChannelOk(s) && forall c: u64 :: ClientOk(s, c)
  }

  // ---------- how a client stays informed ----------

  /** The same updates, or fewer for a client whose initial sync has been given up. */
  lemma StillInformed(r: Room, updates: set<DataUpdate>, updates': set<DataUpdate>, buckets: set<u64>, phase: Phase,
                      phase': Phase)
    requires Informed(r, updates, buckets, phase)
    requires updates' <= updates && (updates' == updates || phase'.Aborted?)
    requires phase'.Waiting? ==> phase' == phase
    requires phase'.Sending? ==> phase.Sending?
    requires phase'.Synced? ==> phase.Sending? || phase.Synced?
    ensures Informed(r, updates', buckets, phase')
  {
  }

  lemma SamePipe(s: Sync, s': Sync, c: u64)
    requires ClientOk(s, c) && c in s.hub.connections && Registered(s', c)
    requires s'.room == s.room && s'.hub.connections[c].buckets == s.hub.connections[c].buckets
    requires Pipe(s', c) <= Pipe(s, c) && (Pipe(s', c) == Pipe(s, c) || s'.phase[c].Aborted?)
    requires s'.phase[c].Waiting? ==> s'.phase[c] == s.phase[c]
    requires s'.phase[c].Sending? ==> s.phase[c].Sending?
    requires s'.phase[c].Synced? ==> s.phase[c].Sending? || s.phase[c].Synced?
    ensures ClientOk(s', c)
  {
    StillInformed(s.room, Pipe(s, c), Pipe(s', c), s.hub.connections[c].buckets, s.phase[c], s'.phase[c]);
  }

  lemma OnChannelJoin(a: seq<ChannelMessage>, b: seq<ChannelMessage>, c: u64, buckets: set<u64>)
    ensures OnChannel(a + b, c, buckets) == OnChannel(a, c, buckets) + OnChannel(b, c, buckets)
  {
  }

  lemma OnChannelOne(m: ChannelMessage, c: u64, buckets: set<u64>)
    ensures OnChannel([m], c, buckets) == if Concerns(m, c, buckets) then {m.update} else {}
  {
  }

  lemma ElementsJoin(a: seq<DataUpdate>, b: seq<DataUpdate>)
    ensures Elements(a + b) == Elements(a) + Elements(b)
  {
  }

  lemma ElementsOne(u: DataUpdate)
    ensures Elements([u]) == {u}
  {
  }

  // ---------- writes ----------

  lemma WriteFits(r: Room, c: RoomCommand, u: DataUpdate)
    requires Bounded(r) && Fits(r, u)
    ensures Fits(Put(r, c), u)
    ensures !About(u, c.bucket, c.key) && Current(r, u) ==> Current(Put(r, c), u)
  {
    PutEntry(r, c, u.bucket, u.key);
  }

  function Only(u: DataUpdate, buckets: set<u64>): set<DataUpdate> {
    if u.bucket in buckets then {u} else {}
  }

  function OwnUpdate(r: Room, cmd: RoomCommand): DataUpdate {
    DataUpdate(cmd.bucket, cmd.key, Some(cmd.Stored()), r.counter + 1)
  }

  lemma OneMoreWriter(writers: map<nat, Writer>, w: nat, writer: Writer, buckets: set<u64>)
    requires w !in writers
    ensures BeingWritten(writers[w := writer], buckets) == BeingWritten(writers, buckets) + Only(writer.update, buckets)
  {
    var more := writers[w := writer];
    assert forall x :: x in writers ==> more[x] == writers[x];
    assert w in more && more[w] == writer;
    forall u | u in BeingWritten(writers, buckets) + Only(writer.update, buckets)
      ensures u in BeingWritten(more, buckets)
    {
      if u in BeingWritten(writers, buckets) {
        var x :| x in writers && writers[x].update == u && u.bucket in buckets;
        assert x in more && more[x].update == u;
      }
    }
  }

  /** One more write: every key a client heard about stays answered, by the new update if it is the write's own key. */
  lemma WriteHas(r: Room, cmd: RoomCommand, updates: set<DataUpdate>, buckets: set<u64>)
    requires Bounded(r) && forall u :: u in updates ==> Fits(r, u)
    ensures var r', more := Put(r, cmd), updates + Only(OwnUpdate(r, cmd), buckets);
      && (forall u :: u in more ==> Fits(r', u))
      && (forall b: u64, k :: b in buckets && Has(r, updates, b, k) ==> Has(r', more, b, k))
      && (cmd.bucket in buckets ==> Has(r', more, cmd.bucket, cmd.key))
  {
    var r', mine := Put(r, cmd), OwnUpdate(r, cmd);
    PutEntry(r, cmd, cmd.bucket, cmd.key);
    assert About(mine, cmd.bucket, cmd.key) && Current(r', mine) && Fits(r', mine);
    forall u | u in updates
      ensures Fits(r', u)
      ensures !About(u, cmd.bucket, cmd.key) && Current(r, u) ==> Current(r', u)
    {
      WriteFits(r, cmd, u);
    }
  }

  lemma WriteInformed(r: Room, cmd: RoomCommand, updates: set<DataUpdate>, buckets: set<u64>, phase: Phase)
    requires Bounded(r) && Informed(r, updates, buckets, phase)
    ensures Informed(Put(r, cmd), updates + Only(OwnUpdate(r, cmd), buckets), buckets, phase)
  {
    var r', more := Put(r, cmd), updates + Only(OwnUpdate(r, cmd), buckets);
    WriteHas(r, cmd, updates, buckets);
    forall b: u64, k
      ensures b != cmd.bucket || k != cmd.key ==> EntryAt(r', b, k) == EntryAt(r, b, k)
    {
      PutEntry(r, cmd, b, k);
    }
    forall u | u in more && !phase.Aborted?
      ensures Answered(r', more, u, phase.Waiting?)
    {
      if !About(u, cmd.bucket, cmd.key) {
        assert u in updates && Answered(r, updates, u, phase.Waiting?);
      }
    }
  }

  lemma WriteKeepsClient(s: Sync, w: nat, b: u64, k: string, v: Value, c: u64)
    requires Bounded(s.room) && Idle(s.room) && w !in s.writers && ClientOk(s, c)
    ensures ClientOk(DoWrite(s, w, b, k, v), c)
  {
    if c in s.hub.connections {
      var s', cmd, buckets := DoWrite(s, w, b, k, v), Set(b, k, v), s.hub.connections[c].buckets;
      assert s'.room == Put(s.room, cmd) && s'.writers[w].update == OwnUpdate(s.room, cmd);
      OneMoreWriter(s.writers, w, s'.writers[w], buckets);
      assert Pipe(s', c) == Pipe(s, c) + Only(OwnUpdate(s.room, cmd), buckets);
      WriteInformed(s.room, cmd, Pipe(s, c), buckets, s.phase[c]);
    }
  }

  /** A writer that the write does not overtake stays in order. */
  lemma WriteKeepsWriter(r: Room, cmd: RoomCommand, other: Writer)
    requires Bounded(r) && WriterOk(r, other)
    requires About(other.update, cmd.bucket, cmd.key) ==> !Overtaken(other, cmd.Stored())
    ensures WriterOk(Put(r, cmd), other)
  {
    if other.update.bucket != SERVER_ONLY_BUCKET_ID {
      WriteFits(r, cmd, other.update);
      PutEntry(r, cmd, other.update.bucket, other.update.key);
    }
  }

  lemma WriteKeepsWriters(s: Sync, w: nat, b: u64, k: string, v: Value)
    requires Bounded(s.room) && Idle(s.room) && WritersOk(s) && w !in s.writers && !Harms(s, b, k, v)
    ensures WritersOk(DoWrite(s, w, b, k, v))
  {
    var s', cmd := DoWrite(s, w, b, k, v), Set(b, k, v);
    PutEntry(s.room, cmd, b, k);
    forall x | x in s.writers
      ensures s'.writers[x] == s.writers[x] && WriterOk(s'.room, s.writers[x])
    {
      if s.writers[x].update.bucket != SERVER_ONLY_BUCKET_ID {
        WriteKeepsWriter(s.room, cmd, s.writers[x]);
      }
    }
  }

  lemma WriteKeepsChannel(s: Sync, w: nat, b: u64, k: string, v: Value)
    requires Bounded(s.room) && Idle(s.room) && ChannelOk(s) && w !in s.writers
    ensures ChannelOk(DoWrite(s, w, b, k, v))
  {
    var s', cmd := DoWrite(s, w, b, k, v), Set(b, k, v);
    forall i | 0 <= i < |s.channel| && Heard(s.channel[i])
      ensures Fits(s'.room, s.channel[i].update) && Followed(s', i, s.channel[i].update)
    {
      var u := s.channel[i].update;
      WriteFits(s.room, cmd, u);
      PutEntry(s.room, cmd, u.bucket, u.key);
      if About(u, b, k) {
        assert w in s'.writers && About(s'.writers[w].update, b, k) && Current(s'.room, s'.writers[w].update);
      } else {
        WriteKeepsFollowed(s, w, cmd, i, u);
      }
    }
  }

  lemma WriteKeepsFollowed(s: Sync, w: nat, cmd: RoomCommand, i: nat, u: DataUpdate)
    requires cmd.Set? && Idle(s.room) && w !in s.writers && !About(u, cmd.bucket, cmd.key) && Followed(s, i, u)
    ensures Followed(DoWrite(s, w, cmd.bucket, cmd.key, cmd.value), i, u)
  {
    var s' := DoWrite(s, w, cmd.bucket, cmd.key, cmd.value);
    PutEntry(s.room, cmd, u.bucket, u.key);
    assert forall x :: About(x, u.bucket, u.key) ==> Current(s'.room, x) == Current(s.room, x);
    assert forall x | x in s.writers :: s'.writers[x] == s.writers[x];
  }

  lemma WriteOk(s: Sync, w: nat, b: u64, k: string, v: Value)
    requires SyncOk(s) && w !in s.writers && !Harms(s, b, k, v)
    ensures WritersOk(DoWrite(s, w, b, k, v)) && ChannelOk(DoWrite(s, w, b, k, v))
    ensures forall c: u64 :: ClientOk(DoWrite(s, w, b, k, v), c)
  {
    WriteKeepsWriters(s, w, b, k, v);
    WriteKeepsChannel(s, w, b, k, v);
    forall c: u64 {
      WriteKeepsClient(s, w, b, k, v, c);
    }
  }

  // ---------- reading the counter ----------

  /** An update is replaced by one of the same key that is current, unless nobody may see it. */
  lemma ReplacedInformed(r: Room, updates: set<DataUpdate>, updates': set<DataUpdate>, before: DataUpdate,
                         after: DataUpdate, buckets: set<u64>, phase: Phase)
    requires Informed(r, updates, buckets, phase)
    requires after.bucket == before.bucket && after.key == before.key
    requires updates' <= updates + Only(after, buckets) && updates <= updates' + {before}
    requires before.bucket in buckets ==> after in updates' && Current(r, after) && Fits(r, after)
    requires before.bucket !in buckets ==> updates' == updates
    ensures Informed(r, updates', buckets, phase)
  {
    forall b: u64, k | Has(r, updates, b, k)
      ensures Has(r, updates', b, k)
    {
      var u :| u in updates && About(u, b, k) && Current(r, u);
      if u !in updates' {
        assert u == before && About(after, b, k);
      }
    }
    if after in updates' && before.bucket in buckets {
      assert About(after, after.bucket, after.key);
      assert Has(r, updates', after.bucket, after.key);
    }
    forall u | u in updates' && !phase.Aborted?
      ensures Answered(r, updates', u, phase.Waiting?)
    {
      if u in updates {
        assert Answered(r, updates, u, phase.Waiting?);
      }
    }
  }

  lemma StampedWriters(writers: map<nat, Writer>, w: nat, stamped: Writer, buckets: set<u64>)
    requires w in writers
    requires stamped.update.bucket == writers[w].update.bucket
    ensures var more, after := BeingWritten(writers, buckets), BeingWritten(writers[w := stamped], buckets);
      && after <= more + Only(stamped.update, buckets) && more <= after + {writers[w].update}
      && (stamped.update.bucket in buckets ==> stamped.update in after)
      && (stamped.update.bucket !in buckets ==> after == more)
  {
    var writers' := writers[w := stamped];
    assert forall x | x in writers && x != w :: writers'[x] == writers[x];
    assert w in writers' && writers'[w] == stamped;
    forall u | u in BeingWritten(writers, buckets) && u != writers[w].update
      ensures u in BeingWritten(writers', buckets)
    {
      var x :| x in writers && writers[x].update == u && u.bucket in buckets;
      assert x in writers' && writers'[x].update == u;
    }
    forall u | stamped.update.bucket !in buckets && u in BeingWritten(writers, buckets)
      ensures u in BeingWritten(writers', buckets)
    {
      var x :| x in writers && writers[x].update == u && u.bucket in buckets;
      assert x in writers' && writers'[x].update == u;
    }
  }

  lemma StampKeepsClient(s: Sync, w: nat, c: u64)
    requires Base(s) && WritersOk(s) && ClientOk(s, c) && w in s.writers && s.writers[w].Written?
    ensures ClientOk(DoStamp(s, w), c)
  {
    if c in s.hub.connections {
      var s', buckets := DoStamp(s, w), s.hub.connections[c].buckets;
      var before, after := s.writers[w].update, s'.writers[w].update;
      StampedWriters(s.writers, w, s'.writers[w], buckets);
      StampedIsCurrent(s, w);
      if before.bucket !in buckets {
        assert Pipe(s', c) == Pipe(s, c);
      }
      ReplacedInformed(s.room, Pipe(s, c), Pipe(s', c), before, after, buckets, s.phase[c]);
    }
  }

  lemma StampedIsCurrent(s: Sync, w: nat)
    requires Base(s) && WritersOk(s) && w in s.writers && s.writers[w].Written?
    ensures var after := DoStamp(s, w).writers[w].update;
      after.bucket != SERVER_ONLY_BUCKET_ID ==> Current(s.room, after) && Fits(s.room, after)
  {
    assert WriterOk(s.room, s.writers[w]);
  }

  lemma StampKeepsFollowed(s: Sync, w: nat, i: nat, u: DataUpdate)
    requires Base(s) && WritersOk(s) && w in s.writers && s.writers[w].Written?
    requires u.bucket != SERVER_ONLY_BUCKET_ID && Followed(s, i, u)
    ensures Followed(DoStamp(s, w), i, u)
  {
    var s' := DoStamp(s, w);
    if CurrentWriter(s, u.bucket, u.key) {
      var x :| x in s.writers && About(s.writers[x].update, u.bucket, u.key) && Current(s.room, s.writers[x].update);
      StampedIsCurrent(s, w);
      assert x in s'.writers && About(s'.writers[x].update, u.bucket, u.key);
    }
  }

  lemma StampOk(s: Sync, w: nat)
    requires SyncOk(s) && w in s.writers && s.writers[w].Written?
    ensures WritersOk(DoStamp(s, w)) && ChannelOk(DoStamp(s, w))
    ensures forall c: u64 :: ClientOk(DoStamp(s, w), c)
  {
    var s' := DoStamp(s, w);
    StampedIsCurrent(s, w);
    assert forall x :: x in s.writers && x != w ==> s'.writers[x] == s.writers[x];
    assert WriterOk(s.room, s.writers[w]) ==> WriterOk(s.room, s'.writers[w]);
    forall i | 0 <= i < |s.channel| && Heard(s.channel[i])
      ensures Followed(s', i, s.channel[i].update)
    {
      StampKeepsFollowed(s, w, i, s.channel[i].update);
    }
    forall c: u64 {
      StampKeepsClient(s, w, c);
    }
  }

  // ---------- sending the broadcast ----------

  lemma AnnounceKeepsFollowed(s: Sync, w: nat, i: nat, u: DataUpdate)
    requires w in s.writers && s.writers[w].Stamped? && |s.channel| < CHANNEL_CAPACITY
    requires i < |s.channel| && Followed(s, i, u)
    ensures Followed(DoAnnounce(s, w), i, u)
  {
    var s', n := DoAnnounce(s, w), |s.channel|;
    assert s'.channel[n] == Broadcast(s.writers[w].update);
    if LaterCurrent(s, i, u.bucket, u.key) {
      var j :| i <= j < |s.channel| && s.channel[j].Broadcast? && About(s.channel[j].update, u.bucket, u.key)
               && Current(s.room, s.channel[j].update);
      assert s'.channel[j] == s.channel[j];
    } else if CurrentWriter(s, u.bucket, u.key) {
      var x :| x in s.writers && About(s.writers[x].update, u.bucket, u.key) && Current(s.room, s.writers[x].update);
      if x == w {
        assert LaterCurrent(s', i, u.bucket, u.key);
      } else {
        assert x in s'.writers && s'.writers[x] == s.writers[x];
      }
    }
  }

  lemma AnnounceKeepsChannel(s: Sync, w: nat)
    requires ChannelOk(s) && WritersOk(s) && w in s.writers && s.writers[w].Stamped? && |s.channel| < CHANNEL_CAPACITY
    ensures ChannelOk(DoAnnounce(s, w))
  {
    var s' := DoAnnounce(s, w);
    forall i | 0 <= i < |s'.channel| && Heard(s'.channel[i])
      ensures Fits(s'.room, s'.channel[i].update) && Followed(s', i, s'.channel[i].update)
    {
      if i < |s.channel| {
        assert s'.channel[i] == s.channel[i];
        AnnounceKeepsFollowed(s, w, i, s.channel[i].update);
      } else {
        assert s'.channel[i].update == s.writers[w].update && WriterOk(s.room, s.writers[w]);
      }
    }
  }

  /** The update leaves the writer and is on the channel. */
  lemma AnnouncedPipe(s: Sync, w: nat, c: u64)
    requires w in s.writers && s.writers[w].Stamped? && |s.channel| < CHANNEL_CAPACITY && Registered(s, c)
    ensures Pipe(DoAnnounce(s, w), c) == Pipe(s, c)
  {
    var buckets, u := s.hub.connections[c].buckets, s.writers[w].update;
    OnChannelJoin(s.channel, [Broadcast(u)], c, buckets);
    OnChannelOne(Broadcast(u), c, buckets);
    OneMoreWriter(s.writers - {w}, w, s.writers[w], buckets);
    assert (s.writers - {w})[w := s.writers[w]] == s.writers;
  }

  lemma AnnounceOk(s: Sync, w: nat)
    requires SyncOk(s) && w in s.writers && s.writers[w].Stamped? && |s.channel| < CHANNEL_CAPACITY
    ensures WritersOk(DoAnnounce(s, w)) && ChannelOk(DoAnnounce(s, w))
    ensures forall c: u64 :: ClientOk(DoAnnounce(s, w), c)
  {
    AnnounceKeepsChannel(s, w);
    forall c: u64
      ensures ClientOk(DoAnnounce(s, w), c)
    {
      assert ClientOk(s, c);
      if c in s.hub.connections {
        AnnouncedPipe(s, w, c);
        SamePipe(s, DoAnnounce(s, w), c);
      }
    }
  }

  // ---------- clients ----------

  /** Channel, writers and room are untouched, and so are the facts about them. */
  lemma SameTraffic(s: Sync, s': Sync)
    requires s'.room == s.room && s'.channel == s.channel && s'.writers == s.writers
    ensures ChannelOk(s) ==> ChannelOk(s')
    ensures WritersOk(s) ==> WritersOk(s')
  {
    assert forall b: u64, k :: CurrentWriter(s', b, k) == CurrentWriter(s, b, k);
    assert forall i: nat, b: u64, k :: LaterCurrent(s', i, b, k) == LaterCurrent(s, i, b, k);
  }

  lemma JoinKeepsClient(s: Sync, claims: set<u64>, c: u64)
    requires ClientOk(s, c) && c != s.hub.nextConnId
    ensures ClientOk(DoJoin(s, claims), c)
  {
    var s' := DoJoin(s, claims);
    if c in s'.hub.connections {
      assert s'.hub.connections[c] == s.hub.connections[c];
      assert Pipe(s', c) == Pipe(s, c);
      SamePipe(s, s', c);
    }
  }

  /** A new client's pipe is what is on the channel or being written for its buckets. */
  lemma NewClientPipe(s: Sync, claims: set<u64>)
    requires Base(s)
    requires !Rejects(Allocate(s.hub), s.hub.nextConnId, AllowedBuckets(claims, SERVER_ONLY_BUCKET_ID))
    ensures var s', conn, allowed := DoJoin(s, claims), s.hub.nextConnId, AllowedBuckets(claims, SERVER_ONLY_BUCKET_ID);
      && Registered(s', conn) && s'.phase[conn] == Waiting(allowed) && s'.hub.connections[conn].buckets == allowed
      && Pipe(s', conn) == OnChannel(s.channel, conn, allowed) + BeingWritten(s.writers, allowed)
  {
  }

  lemma WrittenIsAnswered(s: Sync, buckets: set<u64>, updates: set<DataUpdate>)
    requires WritersOk(s) && SERVER_ONLY_BUCKET_ID !in buckets
    ensures forall u :: u in BeingWritten(s.writers, buckets) ==>
              Fits(s.room, u) && u.bucket in buckets && Answered(s.room, updates, u, true)
  {
  }

  lemma OnChannelIsAnswered(s: Sync, c: u64, buckets: set<u64>, updates: set<DataUpdate>)
    requires ChannelOk(s) && SERVER_ONLY_BUCKET_ID !in buckets
    requires forall m | m in s.channel :: m.Targeted? ==> m.conn != c
    requires OnChannel(s.channel, c, buckets) <= updates && BeingWritten(s.writers, buckets) <= updates
    ensures forall u :: u in OnChannel(s.channel, c, buckets) ==>
              Fits(s.room, u) && u.bucket in buckets && Answered(s.room, updates, u, true)
  {
    forall u | u in OnChannel(s.channel, c, buckets)
      ensures Fits(s.room, u) && u.bucket in buckets && Answered(s.room, updates, u, true)
    {
      var i :| 0 <= i < |s.channel| && s.channel[i].update == u && Concerns(s.channel[i], c, buckets);
      assert Heard(s.channel[i]) && Followed(s, i, u);
      if LaterCurrent(s, i, u.bucket, u.key) {
        var j :| i <= j < |s.channel| && s.channel[j].Broadcast? && About(s.channel[j].update, u.bucket, u.key)
                 && Current(s.room, s.channel[j].update);
        assert s.channel[j] in s.channel && s.channel[j].update in updates;
      } else if CurrentWriter(s, u.bucket, u.key) {
        var w :| w in s.writers && About(s.writers[w].update, u.bucket, u.key) && Current(s.room, s.writers[w].update);
        assert s.writers[w].update in BeingWritten(s.writers, buckets);
      }
    }
  }

  lemma NewClientOk(s: Sync, claims: set<u64>)
    requires SyncOk(s)
    requires !Rejects(Allocate(s.hub), s.hub.nextConnId, AllowedBuckets(claims, SERVER_ONLY_BUCKET_ID))
    ensures ClientOk(DoJoin(s, claims), s.hub.nextConnId)
  {
    var s', conn, allowed := DoJoin(s, claims), s.hub.nextConnId, AllowedBuckets(claims, SERVER_ONLY_BUCKET_ID);
    NewClientPipe(s, claims);
    WrittenIsAnswered(s, allowed, Pipe(s', conn));
    OnChannelIsAnswered(s, conn, allowed, Pipe(s', conn));
  }

  lemma JoinOk(s: Sync, claims: set<u64>)
    requires SyncOk(s)
    ensures WritersOk(DoJoin(s, claims)) && ChannelOk(DoJoin(s, claims))
    ensures forall c: u64 :: ClientOk(DoJoin(s, claims), c)
  {
    var s', conn := DoJoin(s, claims), s.hub.nextConnId;
    SameTraffic(s, s');
    forall c: u64
      ensures ClientOk(s', c)
    {
      if c != conn {
        JoinKeepsClient(s, claims, c);
      } else if !Rejects(Allocate(s.hub), conn, AllowedBuckets(claims, SERVER_ONLY_BUCKET_ID)) {
        NewClientOk(s, claims);
      }
    }
  }

  /** Collecting answers every live key of the requested buckets. */
  lemma CollectedInformed(r: Room, pipe: set<DataUpdate>, updates: seq<DataUpdate>, buckets: set<u64>)
    requires Bounded(r) && Informed(r, pipe, buckets, Waiting(buckets)) && Kernel.SyncList(r, buckets, updates)
    ensures Informed(r, pipe + Elements(updates), buckets, Sending(updates))
  {
    var more := pipe + Elements(updates);
    forall b: u64, k | b in buckets && Live(r, b, k)
      ensures Has(r, more, b, k)
    {
      var u := Kernel.SyncUpdate(b, k, EntryAt(r, b, k).value);
      assert u in updates && About(u, b, k) && u in more && Current(r, u);
    }
    forall u | u in more
      ensures u.bucket in buckets && Fits(r, u) && Answered(r, more, u, false)
    {
      if u in pipe {
        assert Answered(r, pipe, u, true);
      }
    }
  }

  lemma CollectOk(s: Sync, c: u64, updates: seq<DataUpdate>)
    requires SyncOk(s) && DoCollect(s, c, updates) != s
    ensures WritersOk(DoCollect(s, c, updates)) && ChannelOk(DoCollect(s, c, updates))
    ensures forall x: u64 :: ClientOk(DoCollect(s, c, updates), x)
  {
    var s' := DoCollect(s, c, updates);
    SameTraffic(s, s');
    forall x: u64
      ensures ClientOk(s', x)
    {
      assert ClientOk(s, x);
      if x in s.hub.connections {
        if x == c {
          assert Pipe(s', c) == Pipe(s, c) + Elements(updates);
          CollectedInformed(s.room, Pipe(s, c), updates, s.hub.connections[c].buckets);
        } else {
          assert Pipe(s', x) == Pipe(s, x);
          SamePipe(s, s', x);
        }
      }
    }
  }

  /** What one turn of the sending loop puts on the channel. */
  function SentBy(s: Sync, c: u64): seq<ChannelMessage>
    requires c in s.phase && s.phase[c].Sending?
  {
    if s.phase[c].todo != [] && |s.channel| < CHANNEL_CAPACITY then [Targeted(c, s.phase[c].todo[0])] else []
  }

  lemma TargetedKeepsChannel(s: Sync, s': Sync, sent: seq<ChannelMessage>)
    requires ChannelOk(s) && s'.room == s.room && s'.writers == s.writers && s'.channel == s.channel + sent
    requires forall m | m in sent :: m.Targeted?
    ensures ChannelOk(s')
  {
    assert forall j | |s.channel| <= j < |s'.channel| :: s'.channel[j] in sent;
    forall i | 0 <= i < |s'.channel| && Heard(s'.channel[i])
      ensures Fits(s'.room, s'.channel[i].update) && Followed(s', i, s'.channel[i].update)
    {
      assert s'.channel[i] == s.channel[i];
      var u := s.channel[i].update;
      if LaterCurrent(s, i, u.bucket, u.key) {
        var j :| i <= j < |s.channel| && s.channel[j].Broadcast? && About(s.channel[j].update, u.bucket, u.key)
                 && Current(s.room, s.channel[j].update);
        assert s'.channel[j] == s.channel[j];
      } else {
        assert CurrentWriter(s, u.bucket, u.key) ==> CurrentWriter(s', u.bucket, u.key);
      }
    }
  }

  /** The update leaves the sender's list and is on the channel; when the channel is full the sender stops. */
  lemma SentPipe(s: Sync, c: u64, x: u64)
    requires c in s.phase && s.phase[c].Sending? && Registered(s, x)
    ensures var s' := DoSendNext(s, c);
      Pipe(s', x) <= Pipe(s, x) && (Pipe(s', x) == Pipe(s, x) || (x == c && s'.phase[x].Aborted?))
  {
    var s', todo, buckets := DoSendNext(s, c), s.phase[c].todo, s.hub.connections[x].buckets;
    if todo != [] && |s.channel| < CHANNEL_CAPACITY {
      OnChannelJoin(s.channel, [Targeted(c, todo[0])], x, buckets);
      OnChannelOne(Targeted(c, todo[0]), x, buckets);
      assert todo == [todo[0]] + todo[1..];
      ElementsJoin([todo[0]], todo[1..]);
      ElementsOne(todo[0]);
    }
    assert todo == [] ==> Elements(todo) == {};
  }

  lemma SentClientOk(s: Sync, c: u64, x: u64)
    requires ClientOk(s, x) && x in s.hub.connections && c in s.phase && s.phase[c].Sending?
    ensures ClientOk(DoSendNext(s, c), x)
  {
    SentPipe(s, c, x);
    SamePipe(s, DoSendNext(s, c), x);
  }

  lemma SendNextOk(s: Sync, c: u64)
    requires SyncOk(s) && c in s.phase && s.phase[c].Sending?
    ensures WritersOk(DoSendNext(s, c)) && ChannelOk(DoSendNext(s, c))
    ensures forall x: u64 :: ClientOk(DoSendNext(s, c), x)
  {
    var s' := DoSendNext(s, c);
    assert s'.channel == s.channel + SentBy(s, c);
    TargetedKeepsChannel(s, s', SentBy(s, c));
    forall x: u64
      ensures ClientOk(s', x)
    {
      assert ClientOk(s, x);
      if x in s.hub.connections {
        SentClientOk(s, c, x);
      }
    }
  }

  lemma GiveUpOk(s: Sync, c: u64)
    requires SyncOk(s) && c in s.phase
    ensures WritersOk(DoSync(s, GiveUp(c))) && ChannelOk(DoSync(s, GiveUp(c)))
    ensures forall x: u64 :: ClientOk(DoSync(s, GiveUp(c)), x)
  {
    var s' := DoSync(s, GiveUp(c));
    SameTraffic(s, s');
    forall x: u64
      ensures ClientOk(s', x)
    {
      assert ClientOk(s, x);
      if x in s.hub.connections {
        assert Pipe(s', x) <= Pipe(s, x) && (x != c ==> Pipe(s', x) == Pipe(s, x));
        SamePipe(s, s', x);
      }
    }
  }

  // ---------- forwarding and receiving ----------

  lemma TailKeepsFollowed(s: Sync, s': Sync, i: nat, u: DataUpdate)
    requires s.channel != [] && s' == s.(hub := s'.hub, channel := s.channel[1..]) && Followed(s, i + 1, u)
    ensures Followed(s', i, u)
  {
    if LaterCurrent(s, i + 1, u.bucket, u.key) {
      var j :| i + 1 <= j < |s.channel| && s.channel[j].Broadcast? && About(s.channel[j].update, u.bucket, u.key)
               && Current(s.room, s.channel[j].update);
      assert s'.channel[j - 1] == s.channel[j];
    } else {
      assert CurrentWriter(s, u.bucket, u.key) ==> CurrentWriter(s', u.bucket, u.key);
    }
  }

  lemma TailChannelOk(s: Sync, s': Sync)
    requires ChannelOk(s) && s.channel != [] && s' == s.(hub := s'.hub, channel := s.channel[1..])
    ensures ChannelOk(s')
  {
    forall i | 0 <= i < |s'.channel| && Heard(s'.channel[i])
      ensures Fits(s'.room, s'.channel[i].update) && Followed(s', i, s'.channel[i].update)
    {
      assert s'.channel[i] == s.channel[i + 1];
      TailKeepsFollowed(s, s', i, s.channel[i + 1].update);
    }
  }

  /** The update leaves the channel and waits in the queue of every client it concerns. */
  lemma ForwardedPipe(s: Sync, s': Sync, c: u64)
    requires s.channel != [] && s' == s.(hub := s'.hub, channel := s.channel[1..])
    requires Registered(s, c) && Registered(s', c)
    requires var m, client := s.channel[0], s.hub.connections[c];
      s'.hub.connections[c] == if Concerns(m, c, client.buckets) then Enqueue(client, m.update) else client
    ensures Pipe(s', c) == Pipe(s, c)
  {
    var m, client := s.channel[0], s.hub.connections[c];
    assert s.channel == [m] + s'.channel;
    OnChannelJoin([m], s'.channel, c, client.buckets);
    OnChannelOne(m, c, client.buckets);
    ElementsJoin(client.queue, [m.update]);
    ElementsOne(m.update);
  }

  lemma ForwardedClientOk(s: Sync, c: u64)
    requires Indexed(s.hub) && s.channel != [] && c in DoForward(s).hub.connections && ClientOk(s, c)
    ensures ClientOk(DoForward(s), c)
  {
    var s', m := DoForward(s), s.channel[0];
    match m {
      case Broadcast(u) => BroadcastEffect(s.hub, u);
      case Targeted(conn, u) => SendOk(s.hub, conn, u);
    }
    var client := s.hub.connections[c];
    assert s'.hub.connections[c] == if Concerns(m, c, client.buckets) then Enqueue(client, m.update) else client;
    ForwardedPipe(s, s', c);
    SamePipe(s, s', c);
  }

  lemma ForwardOneOk(s: Sync)
    requires SyncOk(s) && s.channel != []
    ensures WritersOk(DoForward(s)) && ChannelOk(DoForward(s))
    ensures forall c: u64 :: ClientOk(DoForward(s), c)
  {
    TailChannelOk(s, DoForward(s));
    forall c: u64
      ensures ClientOk(DoForward(s), c)
    {
      assert ClientOk(s, c);
      if c in DoForward(s).hub.connections {
        ForwardedClientOk(s, c);
      }
    }
  }

  lemma TakenPipe(s: Sync, c: u64, x: u64)
    requires DoTake(s, c) != s && Registered(s, x)
    ensures Pipe(DoTake(s, c), x) == Pipe(s, x)
  {
    var queue := s.hub.connections[c].queue;
    assert queue == [queue[0]] + queue[1..];
    ElementsJoin([queue[0]], queue[1..]);
    ElementsJoin(s.taken[c], [queue[0]]);
    ElementsOne(queue[0]);
  }

  lemma TakeOneOk(s: Sync, c: u64)
    requires SyncOk(s) && DoTake(s, c) != s
    ensures WritersOk(DoTake(s, c)) && ChannelOk(DoTake(s, c))
    ensures forall x: u64 :: ClientOk(DoTake(s, c), x)
  {
    var s' := DoTake(s, c);
    SameTraffic(s, s');
    forall x: u64
      ensures ClientOk(s', x)
    {
      assert ClientOk(s, x);
      if x in s.hub.connections {
        TakenPipe(s, c, x);
        SamePipe(s, s', x);
      }
    }
  }

  /** Closing a receiver or removing a client takes nothing from the others. */
  lemma DepartureOk(s: Sync, s': Sync)
    requires SyncOk(s) && s' == s.(hub := s'.hub)
    requires forall x :: x in s'.hub.connections ==>
               && x in s.hub.connections
               && s'.hub.connections[x] == s.hub.connections[x].(open := s'.hub.connections[x].open)
    ensures WritersOk(s') && ChannelOk(s') && forall x: u64 :: ClientOk(s', x)
  {
    SameTraffic(s, s');
    forall x: u64
      ensures ClientOk(s', x)
    {
      assert ClientOk(s, x);
      if x in s'.hub.connections {
        assert Pipe(s', x) == Pipe(s, x);
        SamePipe(s, s', x);
      }
    }
  }

  // ---------- declaring a bucket ----------

  ghost predicate SameEntries(r: Room, r': Room) {
    r'.counter == r.counter && forall b: u64, k :: EntryAt(r', b, k) == EntryAt(r, b, k)
  }

  lemma SameEntriesInformed(r: Room, r': Room, updates: set<DataUpdate>, buckets: set<u64>, phase: Phase)
    requires SameEntries(r, r') && Informed(r, updates, buckets, phase)
    ensures Informed(r', updates, buckets, phase)
  {
    assert forall b: u64, k :: Has(r, updates, b, k) ==> Has(r', updates, b, k);
  }

  lemma SameEntriesTraffic(s: Sync, s': Sync)
    requires SameEntries(s.room, s'.room) && s' == s.(room := s'.room) && WritersOk(s) && ChannelOk(s)
    ensures WritersOk(s') && ChannelOk(s')
  {
    assert forall b: u64, k :: CurrentWriter(s, b, k) ==> CurrentWriter(s', b, k);
    assert forall i: nat, b: u64, k :: LaterCurrent(s, i, b, k) ==> LaterCurrent(s', i, b, k);
  }

  lemma DeclareOk(s: Sync, e: Event)
    requires SyncOk(s) && e.BucketAdded?
    ensures var s' := DoSync(s, Happens(e)); WritersOk(s') && ChannelOk(s') && forall c: u64 :: ClientOk(s', c)
  {
    var s' := DoSync(s, Happens(e));
    assert SameEntries(s.room, s'.room);
    SameEntriesTraffic(s, s');
    forall c: u64
      ensures ClientOk(s', c)
    {
      assert ClientOk(s, c);
      if c in s.hub.connections {
        assert Pipe(s', c) == Pipe(s, c);
        SameEntriesInformed(s.room, s'.room, Pipe(s, c), s.hub.connections[c].buckets, s.phase[c]);
      }
    }
  }

  // ---------- whole runs ----------

  lemma WriterStepOk(s: Sync, step: SyncStep)
    requires SyncOk(s) && Harmless(s, step) && !DoSync(s, step).lost && (step.Write? || step.Stamp? || step.Announce?)
    ensures var s' := DoSync(s, step); WritersOk(s') && ChannelOk(s') && forall c: u64 :: ClientOk(s', c)
  {
    if DoSync(s, step) != s {
      match step
      case Write(w, b, k, v) => WriteOk(s, w, b, k, v);
      case Stamp(w) => StampOk(s, w);
      case Announce(w) => AnnounceOk(s, w);
    }
  }

  lemma ClientStepOk(s: Sync, step: SyncStep)
    requires SyncOk(s) && Plain(s, step) && !step.Write? && !step.Stamp? && !step.Announce?
    ensures var s' := DoSync(s, step); WritersOk(s') && ChannelOk(s') && forall c: u64 :: ClientOk(s', c)
  {
    if DoSync(s, step) != s {
      match step
      case Join(claims) => JoinOk(s, claims);
      case Collect(c, updates) => CollectOk(s, c, updates);
      case SendNext(c) => SendNextOk(s, c);
      case GiveUp(c) => GiveUpOk(s, c);
      case ForwardOne => ForwardOneOk(s);
      case TakeOne(c) => TakeOneOk(s, c);
      case CloseReceiver(c) => DepartureOk(s, DoSync(s, step));
      case Leave(c) => DepartureOk(s, DoSync(s, step));
      case Happens(e) => DeclareOk(s, e);
    }
  }

  lemma SyncStepOk(s: Sync, step: SyncStep)
    requires SyncOk(s) && Plain(s, step) && Harmless(s, step) && !DoSync(s, step).lost
    ensures SyncOk(DoSync(s, step))
  {
    BaseStep(s, step);
    if step.Write? || step.Stamp? || step.Announce? {
      WriterStepOk(s, step);
    } else {
      ClientStepOk(s, step);
    }
  }

  lemma LostStays(s: Sync, step: SyncStep)
    requires s.lost
    ensures DoSync(s, step).lost
  {
  }

  lemma {:induction false} LostForGood(s: Sync, steps: seq<SyncStep>)
    requires s.lost
    ensures RunFrom(s, steps).lost
    decreases |steps|
  {
    if steps != [] {
      LostStays(s, steps[0]);
      LostForGood(DoSync(s, steps[0]), steps[1..]);
    }
  }

  lemma {:induction false} BaseFrom(s: Sync, steps: seq<SyncStep>)
    requires Base(s) && PlainRun(s, steps)
    ensures Base(RunFrom(s, steps))
    decreases |steps|
  {
    if steps != [] {
      BaseStep(s, steps[0]);
      BaseFrom(DoSync(s, steps[0]), steps[1..]);
    }
  }

  lemma {:induction false} SyncOkFrom(s: Sync, steps: seq<SyncStep>)
    requires SyncOk(s) && Orderly(s, steps) && !RunFrom(s, steps).lost
    ensures SyncOk(RunFrom(s, steps))
    decreases |steps|
  {
    if steps != [] {
      var next := DoSync(s, steps[0]);
      if next.lost { LostForGood(next, steps[1..]); }
      SyncStepOk(s, steps[0]);
      SyncOkFrom(next, steps[1..]);
    }
  }

  lemma StartOk(room: Room)
    requires Versioned(room) && Idle(room)
    ensures SyncOk(Start(room))
  {
  }

  /** The invariant behind convergence, after every history without a harmful write and without a lost broadcast. */
  lemma SyncAlwaysOk(room: Room, steps: seq<SyncStep>)
    requires Versioned(room) && Idle(room) && Orderly(Start(room), steps) && !RunSync(room, steps).lost
    ensures SyncOk(RunSync(room, steps))
  {
    StartOk(room);
    SyncOkFrom(Start(room), steps);
  }

  // ---------- the client at rest ----------

  lemma {:induction false} MergeKeepsHighest(updates: seq<DataUpdate>, tie: bool, b: u64, k: string)
    ensures var m := MergeAll(updates, tie);
      && ((b, k) in m <==> exists u :: u in updates && About(u, b, k))
      && ((b, k) in m ==> m[(b, k)] in updates && About(m[(b, k)], b, k))
      && (forall u | u in updates && About(u, b, k) :: u.counter <= m[(b, k)].counter)
  {
    if updates != [] {
      var init, last := updates[..|updates| - 1], updates[|updates| - 1];
      MergeKeepsHighest(init, tie, b, k);
      assert updates == init + [last];
      var m := MergeAll(updates, tie);
      if About(last, b, k) {
        assert (b, k) in m && last in updates;
      }
    }
  }

  /** Nothing is in progress any more, and the client's initial sync went through. */
  ghost predicate AtRest(s: Sync, c: u64) {
    && s.channel == [] && s.writers == map[]
    && Registered(s, c) && s.hub.connections[c].queue == [] && s.phase[c].Synced?
  }

  ghost predicate Converged(s: Sync, c: u64, replaceOnTie: bool)
    requires Registered(s, c)
  {
    ClientView(s.taken[c], replaceOnTie) == LiveContent(s.room, s.hub.connections[c].buckets)
  }

  lemma RestingClientHolds(s: Sync, c: u64, tie: bool, b: u64, k: string)
    requires SyncOk(s) && AtRest(s, c)
    ensures Lookup(ClientView(s.taken[c], tie), (b, k))
         == Lookup(LiveContent(s.room, s.hub.connections[c].buckets), (b, k))
  {
    assert ClientOk(s, c);
    var taken, buckets, m := s.taken[c], s.hub.connections[c].buckets, MergeAll(s.taken[c], tie);
    assert Pipe(s, c) == Elements(taken);
    MergeKeepsHighest(taken, tie, b, k);
    if (b, k) in m {
      var top := m[(b, k)];
      assert top in Pipe(s, c) && Fits(s.room, top) && Answered(s.room, Pipe(s, c), top, false);
      if Has(s.room, Pipe(s, c), b, k) {
        var u :| u in Pipe(s, c) && About(u, b, k) && Current(s.room, u);
        assert u in taken && u.counter <= top.counter;
      }
    } else {
      assert !Has(s.room, Pipe(s, c), b, k);
    }
  }

  lemma RestingClientConverged(s: Sync, c: u64, replaceOnTie: bool)
    requires SyncOk(s) && AtRest(s, c)
    ensures Converged(s, c, replaceOnTie)
  {
    var shown, live := ClientView(s.taken[c], replaceOnTie), LiveContent(s.room, s.hub.connections[c].buckets);
    forall p: (u64, string)
      ensures Lookup(shown, p) == Lookup(live, p)
    {
      RestingClientHolds(s, c, replaceOnTie, p.0, p.1);
      assert p == (p.0, p.1);
    }
    assert forall p: (u64, string) :: p in shown <==> Lookup(shown, p).Some?;
    assert forall p: (u64, string) :: p in live <==> Lookup(live, p).Some?;
    assert shown.Keys == live.Keys;
  }

  /**
   Convergence: for any interleaving of writes, bucket declarations, initial syncs, sends and departures in which no
   write does harm and no broadcast is dropped, a client still registered once everything has drained shows exactly
   the live content of its buckets, whatever it does on equal counters.
   */
  lemma Convergence(room: Room, steps: seq<SyncStep>, c: u64, replaceOnTie: bool)
    requires Versioned(room) && Idle(room) && Orderly(Start(room), steps)
    requires !RunSync(room, steps).lost && AtRest(RunSync(room, steps), c)
    ensures var s := RunSync(room, steps);
      ClientView(s.taken[c], replaceOnTie) == LiveContent(s.room, s.hub.connections[c].buckets)
  {
    SyncAlwaysOk(room, steps);
    RestingClientConverged(RunSync(room, steps), c, replaceOnTie);
  }
}
