/**
 * The per-namespace channel multiplexer (net/channel.go): a request-id
 * counter, an in-flight table from request id to the waiter for its reply,
 * and an append-only list of passive listeners.
 *
 * Each locked section of the source is one atomic step here. The write to
 * the connection is a parameter saying whether it failed, and the waiter is
 * a token standing for the one-shot reply slot made for that request.
 */
module Net {
  import opened Wrappers
  import opened Payload

  /** The addressing part of an inbound wire message, plus its text payload. */
  datatype CastMessage = CastMessage(sourceId: string, destinationId: string, namespace: string, payloadUtf8: string)

  /** Identifies the callback a listener was registered with. */
  type CallbackId = nat

  /** A passive listener: the key it matches and the callback it runs. */
  datatype Listener = Listener(responseType: string, callback: CallbackId)

  /** The one-shot reply slot created for the request with this id. */
  datatype Waiter = Waiter(requestId: int)

  /** What one inbound dispatch did. */
  datatype Dispatch =
    | NotAddressed                                  // dropped by the addressing filter
    | Untyped                                       // dropped: neither type nor responseType
    | Routed(waiter: Option<Waiter>, fired: seq<nat>) // waiter fed (if any), listener indices called in order

  /** How the synchronous part of a request ended. */
  datatype RequestStart = Pending(waiter: Waiter) | SendError

  /** The broadcast destination that bypasses the addressing filter. */
  const Wildcard: string := "*"

  /** The addressing filter: wildcard destination, or the message comes from our peer, to us, on our namespace. */
  predicate Addressed(m: CastMessage, sourceId: string, destinationId: string, namespace: string): (r: bool)
    ensures m.destinationId == Wildcard ==> r
    ensures r && m.destinationId != Wildcard ==>
      m.sourceId == destinationId && m.destinationId == sourceId && m.namespace == namespace
    ensures m.destinationId != Wildcard && (m.sourceId != destinationId || m.namespace != namespace) ==> !r
  {
    m.destinationId == Wildcard
    || (m.sourceId == destinationId && m.destinationId == sourceId && m.namespace == namespace)
  }

  /** A listener fires when its key equals `type`, or equals a non-empty `responseType`. */
  predicate Matches(l: Listener, msgType: string, responseType: string): (r: bool)
    ensures l.responseType == msgType ==> r
    ensures responseType == "" ==> (r <==> l.responseType == msgType)
    ensures r && l.responseType != msgType ==> l.responseType == responseType && responseType != ""
  {
    l.responseType == msgType || (responseType != "" && l.responseType == responseType)
  }

  /** The indices of the listeners in `ls` that fire, in registration order. */
  function MatchingIndices(ls: seq<Listener>, msgType: string, responseType: string): (r: seq<nat>)
    ensures |r| <= |ls|
    ensures forall j :: 0 <= j < |r| ==> r[j] < |ls|
    decreases |ls|
  {
    if ls == [] then []
    else
      var n := |ls| - 1;
      MatchingIndices(ls[..n], msgType, responseType) + (if Matches(ls[n], msgType, responseType) then [n] else [])
  }

  /**
   * The fan-out is exactly the matching listeners: every index it lists is a
   * listener that matches, every matching listener is listed, and the list is
   * strictly increasing (registration order, each listener at most once).
   */
  lemma {:induction false} MatchingIndicesExact(ls: seq<Listener>, msgType: string, responseType: string)
    ensures var r := MatchingIndices(ls, msgType, responseType);
      (forall j :: 0 <= j < |r| ==> r[j] < |ls| && Matches(ls[r[j]], msgType, responseType))
      && (forall i :: 0 <= i < |ls| && Matches(ls[i], msgType, responseType) ==> i in r)
      && (forall j, k :: 0 <= j < k < |r| ==> r[j] < r[k])
    decreases |ls|
  {
    if ls != [] {
      var n := |ls| - 1;
      var prefix := ls[..n];
      MatchingIndicesExact(prefix, msgType, responseType);
      var p := MatchingIndices(prefix, msgType, responseType);
      var r := MatchingIndices(ls, msgType, responseType);
      assert r == p + (if Matches(ls[n], msgType, responseType) then [n] else []);
      forall i | 0 <= i < n && Matches(ls[i], msgType, responseType)
        ensures i in r
      {
        assert prefix[i] == ls[i];
      }
      forall j | 0 <= j < |p|
        ensures p[j] < n && ls[p[j]] == prefix[p[j]]
      {
      }
    }
  }

  /**
   * Registering one more listener never changes which of the earlier ones
   * fire. It holds by one unfolding of the definition, which splits off the
   * last listener; it is what lets a caller reason about `OnMessage`
   * followed by `Message`.
   */
  lemma {:induction false} MatchingIndicesAppend(ls: seq<Listener>, l: Listener, msgType: string, responseType: string)
    ensures MatchingIndices(ls + [l], msgType, responseType)
         == MatchingIndices(ls, msgType, responseType) + (if Matches(l, msgType, responseType) then [|ls|] else [])
  {
    assert (ls + [l])[..|ls|] == ls;
  }

  class Channel {
    const sourceId: string
    const DestinationId: string
    const namespace: string
    /** The last request id handed out; 0 on a fresh channel. */
    var requestId: int
    /** Outstanding requests, keyed by request id. */
    var inFlight: map<int, Waiter>
    /** Passive listeners in registration order. */
    var listeners: seq<Listener>
    /** Every request id this channel has handed out, oldest first. */
    ghost var issued: seq<int>

    /**
     * The ids handed out are exactly 1, 2, ..., requestId, and every
     * in-flight entry is one of them and holds the waiter made for it.
     */
    ghost predicate Valid()
      reads this
    {
      requestId >= 0
      && |issued| == requestId
      && (forall j :: 0 <= j < |issued| ==> issued[j] == j + 1)
      && (forall k :: k in inFlight ==> 1 <= k <= requestId && inFlight[k] == Waiter(k))
    }

    constructor (sourceId: string, destinationId: string, namespace: string)
      ensures Valid()
      ensures this.sourceId == sourceId && DestinationId == destinationId && this.namespace == namespace
      ensures requestId == 0 && inFlight == map[] && listeners == [] && issued == []
    {
      this.sourceId := sourceId;
      DestinationId := destinationId;
      this.namespace := namespace;
      requestId := 0;
      inFlight := map[];
      listeners := [];
      issued := [];
    }

    /**
     * Step 4 of inbound dispatch: walk the listeners in order and collect the
     * indices whose key matches.
     */
    method FanOut(msgType: string, responseType: string) returns (fired: seq<nat>)
      ensures fired == MatchingIndices(listeners, msgType, responseType)
    {
      fired := [];
      var i := 0;
      while i < |listeners|
        invariant 0 <= i <= |listeners|
        invariant fired == MatchingIndices(listeners[..i], msgType, responseType)
      {
        assert listeners[..i + 1][..i] == listeners[..i];
        if Matches(listeners[i], msgType, responseType) {
          fired := fired + [i];
        }
        i := i + 1;
      }
      assert listeners[..i] == listeners;
    }

    /**
     * Inbound dispatch: the addressing filter, the header check, correlated
     * delivery (which consumes the in-flight entry) and the fan-out to
     * listeners, in that order. Only the in-flight table can change.
     */
    method Message(message: CastMessage, headers: PayloadHeaders) returns (d: Dispatch)
      requires Valid()
      modifies this
      ensures Valid()
      ensures requestId == old(requestId) && listeners == old(listeners) && issued == old(issued)
      ensures !Addressed(message, sourceId, DestinationId, namespace) ==> d == NotAddressed && inFlight == old(inFlight)
      ensures Addressed(message, sourceId, DestinationId, namespace) && !headers.Typed() ==>
                d == Untyped && inFlight == old(inFlight)
      ensures Addressed(message, sourceId, DestinationId, namespace) && headers.Typed() ==>
                d.Routed? && d.fired == MatchingIndices(listeners, headers.msgType, headers.responseType)
      ensures d.Routed? && headers.Correlated() && headers.GetRequestId() in old(inFlight) ==>
                d.waiter == Some(old(inFlight)[headers.GetRequestId()])
                && inFlight == old(inFlight) - {headers.GetRequestId()}
      ensures d.Routed? && !(headers.Correlated() && headers.GetRequestId() in old(inFlight)) ==>
                d.waiter == None && inFlight == old(inFlight)
    {
      if !Addressed(message, sourceId, DestinationId, namespace) {
        return NotAddressed;
      }
      if !headers.Typed() {
        return Untyped;
      }
      var waiter: Option<Waiter> := None;
      if headers.requestId.Some? && headers.requestId.value != 0 {
        var id := headers.requestId.value;
        if id in inFlight {
          waiter := Some(inFlight[id]);
          inFlight := inFlight - {id};
        }
      }
      var fired := FanOut(headers.msgType, headers.responseType);
      d := Routed(waiter, fired);
    }

    /** Registers a passive listener at the end of the list; nothing else changes. */
    method OnMessage(responseType: string, callback: CallbackId)
      requires Valid()
      modifies this
      ensures Valid()
      ensures listeners == old(listeners) + [Listener(responseType, callback)]
      ensures requestId == old(requestId) && inFlight == old(inFlight) && issued == old(issued)
    {
      listeners := listeners + [Listener(responseType, callback)];
    }

    /**
     * Fire-and-forget send: hands the payload to the connection, whose
     * outcome `connError` stands for. No correlation bookkeeping happens.
     */
    method Send(payload: PayloadHeaders, connError: bool) returns (err: bool)
      ensures err == connError
    {
      err := connError;
    }

    /**
     * The synchronous part of a request: take the next id, stamp it into the
     * payload, insert a fresh waiter for it and send. When the send fails the
     * entry is removed again before returning.
     */
    method Request(payload: PayloadHeaders, connError: bool) returns (id: int, start: RequestStart)
      requires Valid()
      modifies this, payload
      ensures Valid()
      ensures id == old(requestId) + 1 && requestId == id && id >= 1
      ensures issued == old(issued) + [id] && id !in old(issued)
      ensures id !in old(inFlight)
      ensures payload.requestId == Some(id) && payload.Correlated()
      ensures payload.msgType == old(payload.msgType) && payload.responseType == old(payload.responseType)
      ensures listeners == old(listeners)
      ensures connError ==> start == SendError && inFlight == old(inFlight)
      ensures !connError ==> start == Pending(Waiter(id)) && inFlight == old(inFlight)[id := Waiter(id)]
    {
      requestId := requestId + 1;
      id := requestId;
      issued := issued + [id];
      payload.SetRequestId(id);
      inFlight := inFlight[id := Waiter(id)];
      var err := Send(payload, connError);
      if err {
        inFlight := inFlight - {id};
        start := SendError;
      } else {
        start := Pending(Waiter(id));
      }
    }

    /**
     * The deadline or cancellation of request `id` fired before its reply:
     * drop its entry, if delivery has not already taken it.
     */
    method Cancel(id: int)
      requires Valid()
      modifies this
      ensures Valid()
      ensures inFlight == old(inFlight) - {id}
      ensures requestId == old(requestId) && listeners == old(listeners) && issued == old(issued)
    {
      inFlight := inFlight - {id};
    }
  }
}
