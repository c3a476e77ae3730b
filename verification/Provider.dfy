/** The order client as the executor sees it: one request out, one classified outcome back. */
module Provider {
  import opened Wrappers
  import opened Capability

  // A field of the decoded response object.
  datatype Field = Missing | Text(s: string) | Integer(n: int) | Boolean(b: bool) | OtherJson

  datatype Body =
    | NotJson
    | NotAnObject
    | Object(entity: Field, id: Field, amount: Field, currency: Field, receipt: Field, status: Field)

  // What the transport does: raises one of the three adapter errors or any other exception,
  // returns something that is no response, or returns a response.
  datatype Reply =
    | RaisedRejection
    | RaisedInvalid
    | RaisedOther
    | NotAResponse
    | Response(code: int, body: Body)

  datatype OrderResult = OrderResult(orderId: string, amount: nat, currency: string, receipt: string)

  // Escaped: a ValueError that is none of the three adapter errors.
  datatype ClientOutcome = Created(order: OrderResult) | ProviderRejected | Ambiguous | InvalidResponse | Escaped

  const MAX_ORDER_ID: int := 256

  function ValidateResponse(body: Body, request: OrderRequest): ClientOutcome
    requires !body.NotJson?
  {
    if body.NotAnObject? then InvalidResponse
    else if
      && body.entity == Text("order")
      && body.id.Text? && body.id.s != ""
      && body.amount == Integer(request.amount)
      && body.currency == Text(request.currency)
      && body.receipt == Text(request.receipt)
      && body.status == Text("created")
    then
      // The result's constructor bounds the id; the check above does not.
      if |body.id.s| > MAX_ORDER_ID then Escaped
      else Created(OrderResult(body.id.s, request.amount, request.currency, request.receipt))
    else InvalidResponse
  }

  function Classify(reply: Reply, request: OrderRequest): ClientOutcome {
    match reply
    case RaisedRejection => ProviderRejected
    case RaisedInvalid => InvalidResponse
    case RaisedOther => Ambiguous
    case NotAResponse => Ambiguous
    case Response(code, body) =>
      if !(200 <= code < 300) then ProviderRejected
      else if body.NotJson? then InvalidResponse
      else ValidateResponse(body, request)
  }

  // A 2xx response that matches the request field by field.
  predicate MatchingOrder(reply: Reply, request: OrderRequest, orderId: string) {
    && reply.Response? && 200 <= reply.code < 300
    && reply.body == Object(Text("order"), Text(orderId), Integer(request.amount), Text(request.currency),
                            Text(request.receipt), Text("created"))
  }

  /**
   An order is created exactly on a matching response with a 1..256 character id, and carries the request's own
   fields.
   */
  lemma CreatedExactlyWhen(reply: Reply, request: OrderRequest)
    ensures Classify(reply, request).Created? <==>
              exists id :: MatchingOrder(reply, request, id) && 1 <= |id| <= MAX_ORDER_ID
    ensures forall order :: Classify(reply, request) == Created(order) ==>
              && MatchingOrder(reply, request, order.orderId)
              && (order.amount, order.currency, order.receipt) == (request.amount, request.currency, request.receipt)
  {
    if Classify(reply, request).Created? {
      assert MatchingOrder(reply, request, reply.body.id.s);
    }
  }

  /** The one reply whose error is none of the three the executor handles: a matching order with an overlong id. */
  lemma EscapesExactlyWhen(reply: Reply, request: OrderRequest)
    ensures Classify(reply, request).Escaped? <==> exists id :: MatchingOrder(reply, request, id) && |id| > MAX_ORDER_ID
  {
    if Classify(reply, request).Escaped? {
      assert MatchingOrder(reply, request, reply.body.id.s);
    }
  }

  /**
   PROVIDER_REJECTED exactly when the transport raises its rejection or the response code is not 2xx, AMBIGUOUS
   exactly when it raises anything unforeseen or returns no response.
   */
  lemma RejectedOrAmbiguousExactlyWhen(reply: Reply, request: OrderRequest)
    ensures Classify(reply, request).ProviderRejected? <==>
              reply.RaisedRejection? || (reply.Response? && !(200 <= reply.code < 300))
    ensures Classify(reply, request).Ambiguous? <==> reply.RaisedOther? || reply.NotAResponse?
  {
  }

  /**
   An invalid response is exactly a raised one or a 2xx response that is no order matching the request under a
   non-empty id.
   */
  lemma InvalidExactlyWhen(reply: Reply, request: OrderRequest)
    ensures Classify(reply, request).InvalidResponse? <==>
              || reply.RaisedInvalid?
              || (reply.Response? && 200 <= reply.code < 300
                  && forall id :: MatchingOrder(reply, request, id) ==> id == "")
  {
    var outcome := Classify(reply, request);
    if outcome.Created? || outcome.Escaped? {
      assert MatchingOrder(reply, request, reply.body.id.s);
    }
  }

  class OrdersClient {
    // Requests that left the process, oldest first.
    var sent: seq<OrderRequest>

    constructor ()
      ensures sent == []
    {
      sent := [];
    }

    method CreateOrder(request: OrderRequest, reply: Reply) returns (outcome: ClientOutcome)
      modifies this
      ensures sent == old(sent) + [request]
      ensures outcome == Classify(reply, request)
    {
      sent := sent + [request];
      outcome := Classify(reply, request);
    }
  }
}
