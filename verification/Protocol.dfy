/** Messages between the kernel, the hub and the clients. */
module Protocol {
  import opened Basics

  /** A change of one fragment. A deletion travels as the JSON value null, so `value` is never absent. */
  datatype DataUpdate = DataUpdate(bucket: u64, key: string, value: Option<Value>, counter: nat)

  /** What the kernel puts on the notification channel. */
  datatype ChannelMessage = Broadcast(update: DataUpdate) | Targeted(conn: u64, update: DataUpdate)

  const CHANNEL_CAPACITY: nat := 1024

  /** `try_send` on a bounded channel: a full channel loses the message. */
  function TrySend(channel: seq<ChannelMessage>, message: ChannelMessage): seq<ChannelMessage> {
    if |channel| < CHANNEL_CAPACITY then channel + [message] else channel
  }
}
