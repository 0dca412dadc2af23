/**
 * The notification producer of kafka/producers/notification.go. Its writer is
 * asynchronous, so a send that succeeds means the event was accepted for
 * delivery, not that it reached the broker. Sending either adds the event to
 * the outbox of accepted events or fails and adds nothing.
 */
module Kafka {
  import Events

  class Producer {
    /** The events accepted by the writer, oldest first. */
    var outbox: seq<Events.NotificationEvent>
    var up: bool

    constructor (up: bool)
      ensures outbox == [] && this.up == up
    {
      outbox := [];
      this.up := up;
    }

    method Send(e: Events.NotificationEvent) returns (ok: bool)
      modifies this
      ensures up == old(up) && ok == up
      ensures outbox == if ok then old(outbox) + [e] else old(outbox)
    {
      ok := up;
      if ok {
        outbox := outbox + [e];
      }
    }
  }
}
