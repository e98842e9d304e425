/**
 * Properties of a channel that span several calls: a reply is consumed
 * exactly once, a cancelled request never receives its late reply, requests
 * on one channel are independent, and one status push can both answer a
 * request and notify a listener.
 */
module ChannelScenarios {
  import opened Wrappers
  import opened Payload
  import opened Net

  /** A message from the channel's peer, to the channel, on its namespace. */
  function ReplyTo(c: Channel, text: string): (m: CastMessage)
    reads c
    ensures Addressed(m, c.sourceId, c.DestinationId, c.namespace)
  {
    CastMessage(c.DestinationId, c.sourceId, c.namespace, text)
  }

  /** A request followed by two dispatches of its reply: the first feeds the waiter, the second no one. */
  method ReplyConsumedOnce(c: Channel, payload: PayloadHeaders, text: string) returns (first: Dispatch, second: Dispatch)
    requires c.Valid()
    modifies c, payload
    ensures c.Valid()
    ensures first.Routed? && second.Routed?
    ensures first.waiter == Some(Waiter(c.requestId))
    ensures second.waiter == None
    ensures c.inFlight == old(c.inFlight)
  {
    var id, start := c.Request(payload, false);
    var reply := new PayloadHeaders("", "STATUS", Some(id));
    first := c.Message(ReplyTo(c, text), reply);
    second := c.Message(ReplyTo(c, text), reply);
  }

  /** After a cancellation the late reply reaches no waiter and leaves the table alone; listeners still see it. */
  method CancelledReplyDropped(c: Channel, payload: PayloadHeaders, text: string) returns (late: Dispatch)
    requires c.Valid()
    modifies c, payload
    ensures c.Valid()
    ensures late.Routed? && late.waiter == None
    ensures late.fired == MatchingIndices(c.listeners, "", "STATUS")
    ensures c.inFlight == old(c.inFlight) && c.requestId !in c.inFlight
  {
    var id, start := c.Request(payload, false);
    c.Cancel(id);
    var reply := new PayloadHeaders("", "STATUS", Some(id));
    late := c.Message(ReplyTo(c, text), reply);
  }

  /** Cancelling one of two outstanding requests leaves the other in flight with its own waiter. */
  method CancelIsolated(c: Channel, p1: PayloadHeaders, p2: PayloadHeaders) returns (id1: int, id2: int)
    requires c.Valid()
    modifies c, p1, p2
    ensures c.Valid()
    ensures 1 <= id1 < id2
    ensures id1 !in c.inFlight
    ensures id2 in c.inFlight && c.inFlight[id2] == Waiter(id2)
    ensures c.inFlight == old(c.inFlight)[id2 := Waiter(id2)]
  {
    var s1, s2;
    id1, s1 := c.Request(p1, false);
    id2, s2 := c.Request(p2, false);
    c.Cancel(id1);
  }

  /**
   * A listener keyed "STATUS" and a pending request: the reply
   * `{responseType: "STATUS", requestId: id}` completes the request and
   * also fires that listener.
   */
  method StatusPushAnswersAndNotifies(c: Channel, payload: PayloadHeaders, callback: CallbackId, text: string)
    returns (d: Dispatch)
    requires c.Valid()
    modifies c, payload
    ensures c.Valid()
    ensures d.Routed?
    ensures d.waiter == Some(Waiter(c.requestId))
    ensures c.listeners == old(c.listeners) + [Listener("STATUS", callback)]
    ensures d.fired == MatchingIndices(old(c.listeners), "", "STATUS") + [|old(c.listeners)|]
  {
    c.OnMessage("STATUS", callback);
    var id, start := c.Request(payload, false);
    var reply := new PayloadHeaders("", "STATUS", Some(id));
    d := c.Message(ReplyTo(c, text), reply);
    MatchingIndicesAppend(old(c.listeners), Listener("STATUS", callback), "", "STATUS");
  }
}
