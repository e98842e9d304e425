/**
 * The payload header record (net/payload.go): the three fields every
 * payload document carries so that a channel can route it.
 */
module Payload {
  import opened Wrappers

  class PayloadHeaders {
    /** `type`: the message kind; "" stands for an absent field. */
    var msgType: string
    /** `responseType`: optional, "" when absent. */
    var responseType: string
    /** `requestId`: a nil pointer in the source is `None` here. */
    var requestId: Option<int>

    constructor (msgType: string, responseType: string, requestId: Option<int>)
      ensures this.msgType == msgType && this.responseType == responseType
      ensures this.requestId == requestId
    {
      this.msgType := msgType;
      this.responseType := responseType;
      this.requestId := requestId;
    }

    /** Stamps the correlation id in place; the other two fields stay. */
    method SetRequestId(id: int)
      modifies this
      ensures requestId == Some(id)
      ensures msgType == old(msgType) && responseType == old(responseType)
    {
      requestId := Some(id);
    }

    /** Reads the id back; the source dereferences the pointer, so it must be set. */
    function GetRequestId(): (id: int)
      reads this
      requires requestId.Some?
      ensures requestId == Some(id)
    {
      requestId.value
    }

    /** The header takes part in request/reply correlation: an id is present and non-zero. */
    predicate Correlated(): (r: bool)
      reads this
      ensures r <==> requestId != None && requestId != Some(0)
      ensures r ==> GetRequestId() != 0
    {
      requestId.Some? && requestId.value != 0
    }

    /** A header with neither `type` nor `responseType` is a protocol violation. */
    predicate Typed(): (r: bool)
      reads this
      ensures r <==> msgType != "" || responseType != ""
    {
      !(msgType == "" && responseType == "")
    }
  }

  /** Setting the id twice leaves the header as setting it once with the last value. */
  method SetRequestIdTwice(h: PayloadHeaders, first: int, last: int)
    modifies h
    ensures h.requestId == Some(last) && h.GetRequestId() == last
    ensures h.msgType == old(h.msgType) && h.responseType == old(h.responseType)
  {
    h.SetRequestId(first);
    h.SetRequestId(last);
  }
}
