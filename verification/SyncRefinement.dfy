/** The small steps of the protocol, run back to back, are the operations of the kernel. */
module SyncRefinement {
  import opened Basics
  import opened Protocol
  import opened RoomModel
  import opened RoomTheorems
  import opened HubModel
  import opened SyncModel
  import opened WorldModel
  import Kernel

  /** The three steps of a write that nothing interrupts do to room and channel what the command arm does. */
  lemma UninterruptedWrite(s: Sync, world: World, id: nat, w: nat, b: u64, k: string, v: Value)
    requires w !in s.writers && s.room.loaded && !s.lost
    requires id in world.rooms && world.rooms[id] == s.room && world.channel == s.channel
    ensures var s' := DoSync(DoSync(DoSync(s, Write(w, b, k, v)), Stamp(w)), Announce(w));
      var world' := DoWriteFragment(world, id, b, k, v).0;
      && s'.room == world'.rooms[id] && s'.channel == world'.channel && s'.writers == s.writers
      && (s'.lost <==> world'.channel == world.channel)
  {
    var s1 := DoSync(s, Write(w, b, k, v));
    var s2 := DoSync(s1, Stamp(w));
    var s3 := DoSync(s2, Announce(w));
    assert s2.writers[w].update == DataUpdate(b, k, Some(v), if s.room.ioLocked then 0 else s1.room.counter);
    assert s3.writers == s.writers;
  }

  function SendOn(s: Sync, c: u64, turns: nat): Sync
    decreases turns
  {
    if turns == 0 then s else SendOn(DoSendNext(s, c), c, turns - 1)
  }

  function Targets(c: u64, updates: seq<DataUpdate>): seq<ChannelMessage> {
    seq(|updates|, i requires 0 <= i < |updates| => Targeted(c, updates[i]))
  }

  /** Sending until the first failure puts the first updates on the channel, in order, as many as there is room for. */
  lemma {:induction false} SendAllExact(channel: seq<ChannelMessage>, c: u64, updates: seq<DataUpdate>)
    requires |channel| <= CHANNEL_CAPACITY
    ensures var free := CHANNEL_CAPACITY - |channel|;
      Kernel.SendAll(channel, c, updates) ==
      channel + Targets(c, if |updates| <= free then updates else updates[..free])
    decreases |updates|
  {
    var free := CHANNEL_CAPACITY - |channel|;
    var sent := if |updates| <= free then updates else updates[..free];
    if sent == [] {
      assert channel + Targets(c, sent) == channel;
    } else {
      var rest := updates[1..];
      SendAllExact(channel + [Targeted(c, updates[0])], c, rest);
      assert sent[1..] == if |rest| <= free - 1 then rest else rest[..free - 1];
      assert Targets(c, sent) == [Targeted(c, updates[0])] + Targets(c, sent[1..]);
    }
  }

  /** The turns of the sending loop, taken back to back, are the kernel's whole initial sync. */
  lemma {:induction false} UninterruptedSync(s: Sync, c: u64, updates: seq<DataUpdate>)
    requires c in s.phase && s.phase[c] == Sending(updates) && |s.channel| <= CHANNEL_CAPACITY
    ensures SendOn(s, c, |updates| + 1) ==
            s.(channel := Kernel.SendAll(s.channel, c, updates),
               phase := s.phase[c := if |updates| <= CHANNEL_CAPACITY - |s.channel| then Synced else Aborted])
    decreases |updates|
  {
    var s' := DoSendNext(s, c);
    if updates == [] {
      assert SendOn(s, c, 1) == SendOn(s', c, 0);
    } else if |s.channel| < CHANNEL_CAPACITY {
      UninterruptedSync(s', c, updates[1..]);
      assert s'.phase[c := Synced] == s.phase[c := Synced] && s'.phase[c := Aborted] == s.phase[c := Aborted];
    } else {
      Stopped(s', c, |updates|);
    }
  }

  lemma {:induction false} Stopped(s: Sync, c: u64, turns: nat)
    requires c in s.phase && s.phase[c].Aborted?
    ensures SendOn(s, c, turns) == s
    decreases turns
  {
    if turns > 0 {
      Stopped(s, c, turns - 1);
    }
  }
}
