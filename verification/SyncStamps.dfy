/** The counters that overlapping writes put on their broadcasts, whatever else happens to the room meanwhile. */
module SyncStamps {
  import opened Basics
  import opened Protocol
  import opened RoomModel
  import opened RoomTheorems
  import opened SyncModel

  ghost predicate StampsOk(s: Sync) {
    && (forall w :: w in s.writers ==>
          && s.writers[w].version <= s.writers[w].update.counter <= s.room.counter
          && (s.room.ioLocked ==> s.writers[w].version == 0))
    && (forall i | 0 <= i < |s.stamps| :: s.stamps[i].0 <= s.stamps[i].1 <= s.room.counter)
    && (forall m | m in s.channel :: m.update.counter <= s.room.counter)
    && (forall c | c in s.phase && s.phase[c].Sending? ::
          forall u | u in s.phase[c].todo :: u.counter <= s.room.counter)
  }

  lemma WriteStamps(s: Sync, w: nat, b: u64, k: string, v: Value)
    requires Versioned(s.room) && StampsOk(s)
    ensures StampsOk(DoWrite(s, w, b, k, v))
  {
  }

  lemma CollectStamps(s: Sync, c: u64, updates: seq<DataUpdate>)
    requires Versioned(s.room) && StampsOk(s)
    ensures StampsOk(DoCollect(s, c, updates))
  {
  }

  lemma SendStamps(s: Sync, c: u64)
    requires StampsOk(s)
    ensures StampsOk(DoSendNext(s, c))
  {
  }

  lemma StampStamps(s: Sync, w: nat)
    requires StampsOk(s)
    ensures StampsOk(DoStamp(s, w))
  {
  }

  lemma AnnounceStamps(s: Sync, w: nat)
    requires StampsOk(s)
    ensures StampsOk(DoAnnounce(s, w))
  {
  }

  /** Steps that touch only the hub, what clients took, and phases that send nothing new. */
  lemma QuietStamps(s: Sync, s': Sync)
    requires StampsOk(s) && s'.room == s.room && s'.writers == s.writers && s'.stamps == s.stamps
    requires s'.channel == s.channel || (s.channel != [] && s'.channel == s.channel[1..])
    requires forall c :: c in s'.phase && s'.phase[c].Sending? ==> c in s.phase && s'.phase[c] == s.phase[c]
    ensures StampsOk(s')
  {
  }

  /** The room moves on, its counter no lower than before. */
  lemma RoomMovedStamps(s: Sync, room: Room)
    requires StampsOk(s) && s.room.counter <= room.counter && room.ioLocked == s.room.ioLocked
    ensures StampsOk(s.(room := room))
  {
  }

  /** Only a write or an event moves the room. */
  lemma RoomStep(s: Sync, step: SyncStep)
    requires Versioned(s.room)
    ensures Versioned(DoSync(s, step).room) && s.room.counter <= DoSync(s, step).room.counter
  {
    match step
    case Write(_, b, k, v) => StepVersioned(s.room, Op(Set(b, k, v)));
    case Happens(e) => HappenVersioned(s.room, e);
    case _ => assert DoSync(s, step).room == s.room;
  }

  lemma {:induction false} CommitKeepsLock(r: Room, ops: seq<RoomCommand>)
    ensures Commit(r, ops).ioLocked == r.ioLocked
  {
    if ops != [] {
      CommitKeepsLock(r, ops[..|ops| - 1]);
    }
  }

  lemma HappenKeepsLock(r: Room, e: Event)
    ensures Happen(r, e).ioLocked == r.ioLocked
  {
    if e.Stepped? && e.step.End? && !r.ioLocked && r.txBuffer.Some? {
      CommitKeepsLock(r.(txBuffer := None), r.txBuffer.value);
    }
  }

  lemma EventStamps(s: Sync, e: Event)
    requires Versioned(s.room) && StampsOk(s)
    ensures StampsOk(DoSync(s, Happens(e)))
  {
    HappenVersioned(s.room, e);
    HappenKeepsLock(s.room, e);
    RoomMovedStamps(s, Happen(s.room, e));
  }

  lemma QuietStep(s: Sync, step: SyncStep)
    requires StampsOk(s)
    requires step.Join? || step.GiveUp? || step.ForwardOne? || step.TakeOne? || step.CloseReceiver? || step.Leave?
    ensures StampsOk(DoSync(s, step))
  {
    QuietStamps(s, DoSync(s, step));
  }

  lemma StampStepOk(s: Sync, step: SyncStep)
    requires Versioned(s.room) && StampsOk(s)
    ensures StampsOk(DoSync(s, step))
  {
    match step
    case Write(w, b, k, v) => WriteStamps(s, w, b, k, v);
    case Stamp(w) => StampStamps(s, w);
    case Announce(w) => AnnounceStamps(s, w);
    case Collect(c, updates) => CollectStamps(s, c, updates);
    case SendNext(c) => SendStamps(s, c);
    case Happens(e) => EventStamps(s, e);
    case _ => QuietStep(s, step);
  }

  lemma {:induction false} StampsFrom(s: Sync, steps: seq<SyncStep>)
    requires Versioned(s.room) && StampsOk(s)
    ensures Versioned(RunFrom(s, steps).room) && StampsOk(RunFrom(s, steps))
    ensures s.room.counter <= RunFrom(s, steps).room.counter
    decreases |steps|
  {
    if steps != [] {
      RoomStep(s, steps[0]);
      StampStepOk(s, steps[0]);
      StampsFrom(DoSync(s, steps[0]), steps[1..]);
    }
  }

  /**
   With the steps of any number of writes interleaved, and with transactions, bucket changes, loads and unloads in
   between, the counter a write broadcasts is at least the version its own fragment received and never exceeds the
   room counter, then or later.
   */
  lemma ConcurrentWriteStamps(room: Room, steps: seq<SyncStep>)
    requires Versioned(room)
    ensures Versioned(RunSync(room, steps).room) && StampsOk(RunSync(room, steps))
    ensures room.counter <= RunSync(room, steps).room.counter
  {
    StampsFrom(Start(room), steps);
  }

  /** The version kept for a write is the one its fragment carries, if the set took effect directly. */
  lemma OwnVersion(s: Sync, w: nat, b: u64, k: string, v: Value)
    requires w !in s.writers
    ensures var s' := DoWrite(s, w, b, k, v);
      if Idle(s.room) then EntryAt(s'.room, b, k) == Some(Entry(v, s'.writers[w].version)) && s'.writers[w].version > 0
      else s'.writers[w].version == 0
  {
  }
}
