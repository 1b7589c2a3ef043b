/**
 * The product service's publisher: validation of a creation request, the
 * event it publishes with retries, and the answer it gives its caller.
 */
module ProductService {
  import opened JsValues
  import opened Validation
  import opened Retry

  /** The fields of `req.body` the service reads. */
  datatype ProductRequest = ProductRequest(id: JsValue, name: JsValue, price: JsValue)

  const IdInvalid := "Product ID is required and must be a non-empty string"
  const NameInvalid := "Product name is required and must be a non-empty string"
  const PriceInvalid := "Product price is required and must be a positive number"

  /** A string with something other than whitespace in it. */
  predicate HasText(v: JsValue) {
    v.Str? && Trim(v.s) != ""
  }

  /** A creation request the service goes on to publish. */
  predicate RequestValid(body: ProductRequest) {
    HasText(body.id) && HasText(body.name) && IsPositiveNumber(body.price)
  }

  /** The checks run on a request, in the order they are run. */
  function RequestChecks(body: ProductRequest): seq<Check> {
    [ Check(HasText(body.id), IdInvalid),
      Check(HasText(body.name), NameInvalid),
      Check(IsPositiveNumber(body.price), PriceInvalid) ]
  }

  /** Every violation in the request, in the order id, name, price. */
  function RequestErrors(body: ProductRequest): seq<string> {
    Violations(RequestChecks(body))
  }

  /** The middleware's decision: hand on to the handler, or answer 400 with the errors. */
  datatype Gate = Next | Rejected(details: seq<string>)

  /** `validateProduct`: collects the violations and stops the request when there are any. */
  method ValidateProduct(body: ProductRequest) returns (gate: Gate)
    ensures gate.Next? <==> RequestValid(body)
    ensures gate.Rejected? ==> gate.details == RequestErrors(body) && gate.details != []
  {
    var checks := RequestChecks(body);
    var errors: seq<string> := [];
    if !Truthy(body.id) || !body.id.Str? || |Trim(body.id.s)| == 0 {
      errors := errors + [IdInvalid];
    }
    assert errors == Reported(checks[0]);
    if !Truthy(body.name) || !body.name.Str? || |Trim(body.name.s)| == 0 {
      errors := errors + [NameInvalid];
    }
    assert errors == Reported(checks[0]) + Reported(checks[1]);
    if body.price == Missing || !body.price.Num? || body.price.n <= 0.0 {
      errors := errors + [PriceInvalid];
    }
    assert errors == Reported(checks[0]) + Reported(checks[1]) + Reported(checks[2]);
    ViolationsOfThree(checks[0], checks[1], checks[2]);
    if |errors| > 0 {
      gate := Rejected(errors);
      return;
    }
    gate := Next;
  }

  /** The request's errors are one optional message per field, in the order id, name, price. */
  lemma RequestErrorsInOrder(body: ProductRequest)
    ensures var errors := RequestErrors(body);
      && errors == Reported(RequestChecks(body)[0]) + Reported(RequestChecks(body)[1]) + Reported(RequestChecks(body)[2])
      && |errors| <= 3
  {
    var cs := RequestChecks(body);
    ViolationsOfThree(cs[0], cs[1], cs[2]);
  }

  /** A field's message is among the request's errors exactly when the field fails its check. */
  lemma RequestErrorsPerField(body: ProductRequest)
    ensures IdInvalid in RequestErrors(body) <==> !HasText(body.id)
    ensures NameInvalid in RequestErrors(body) <==> !HasText(body.name)
    ensures PriceInvalid in RequestErrors(body) <==> !IsPositiveNumber(body.price)
  {
    var cs := RequestChecks(body);
    ViolationsOfThreeReport(cs[0], cs[1], cs[2]);
  }

  /** An id or name rejected for whitespace is one made only of whitespace characters. */
  lemma BlankFieldRejected(body: ProductRequest)
    requires body.id.Str?
    ensures IdInvalid in RequestErrors(body) <==>
            forall i :: 0 <= i < |body.id.s| ==> IsWhitespace(body.id.s[i])
  {
    RequestErrorsPerField(body);
    TrimEmptyIffBlank(body.id.s);
  }

  /** The product the handler works with: trimmed id and name, price as sent. */
  datatype Product = Product(id: string, name: string, price: real)

  /** The product read from a validated request. */
  function TrimmedProduct(body: ProductRequest): (p: Product)
    requires RequestValid(body)
    ensures p.id == Trim(body.id.s) && p.name == Trim(body.name.s) && p.price == body.price.n
    ensures p.id != "" && p.name != "" && p.price > 0.0
  {
    Product(Trim(body.id.s), Trim(body.name.s), body.price.n)
  }

  /** The product's id and name are already trimmed: trimming them again changes nothing. */
  lemma TrimmedProductIsTrimmed(body: ProductRequest)
    requires RequestValid(body)
    ensures Trim(TrimmedProduct(body).id) == TrimmedProduct(body).id
    ensures Trim(TrimmedProduct(body).name) == TrimmedProduct(body).name
  {
    TrimIdempotent(body.id.s);
    TrimIdempotent(body.name.s);
  }

  /** The pub/sub component and topic the event is published to. */
  const PubsubName := "pubsub"
  const Topic := "product-events"

  /** Attempts and first wait of the publish retry (the helper's defaults). */
  const MaxPublishAttempts := 3
  const PublishBaseDelay := 1000

  /** The event body sent on one publish attempt. */
  datatype EventPayload = EventPayload(productId: string, name: string, price: real, timestamp: string, correlationId: string)

  /** The payload for `product`, stamped at `timestamp`, under the request's correlation id. */
  function PublishedPayload(product: Product, timestamp: string, correlationId: string): (e: EventPayload)
    ensures e.productId == product.id && e.name == product.name && e.price == product.price
    ensures e.timestamp == timestamp && e.correlationId == correlationId
  {
    EventPayload(product.id, product.name, product.price, timestamp, correlationId)
  }

  /** The payloads of the first `n` publish calls: the same event, each stamped when its call is made. */
  function AttemptPayloads(product: Product, correlationId: string, clock: nat -> string, n: nat): (sent: seq<EventPayload>)
    ensures |sent| == n
    ensures forall k :: 0 <= k < n ==> sent[k] == PublishedPayload(product, clock(k + 1), correlationId)
  {
    seq(n, k requires 0 <= k => PublishedPayload(product, clock(k + 1), correlationId))
  }

  /** What the sidecar answers to a publish call it accepts. */
  datatype SidecarReply = SidecarReply(status: int)

  /** A rejected publish call; `code` is the error's `code` property (`Missing` when it has none). */
  datatype PublishError = PublishError(code: JsValue)

  /** What each successive publish call does: `publish(k)` is the outcome of the `k`-th call. */
  type PublishCalls = nat -> Attempt<SidecarReply, PublishError>

  const ConnectionRefused := "ECONNREFUSED"
  const RetryAfterSeconds := 30

  /** The service's answer to `POST /api/products`. */
  datatype ProductResponse =
    | ValidationFailed(details: seq<string>)
    | ProductCreated(product: Product, correlationId: string)
    | ServiceUnavailable(correlationId: string, retryAfter: int)
    | PublishFailed(correlationId: string)
  {
    function Status(): int {
      match this
      case ValidationFailed(_) => 400
      case ProductCreated(_, _) => 200
      case ServiceUnavailable(_, _) => 503
      case PublishFailed(_) => 500
    }
  }

  /**
   * The answer once publishing has failed: a refused connection is reported
   * as temporarily unavailable with a 30-second retry hint, anything else as a
   * failed publish; both carry the correlation id.
   */
  function PublishFailureResponse(error: PublishError, correlationId: string): (resp: ProductResponse)
    ensures resp.Status() == 503 <==> error.code == Str(ConnectionRefused)
    ensures resp.Status() == 500 <==> error.code != Str(ConnectionRefused)
    ensures resp.Status() == 503 ==> resp.retryAfter == RetryAfterSeconds
    ensures !resp.ValidationFailed? && !resp.ProductCreated? && resp.correlationId == correlationId
  {
    if error.code == Str(ConnectionRefused) then ServiceUnavailable(correlationId, RetryAfterSeconds)
    else PublishFailed(correlationId)
  }

  /**
   * The body of the `POST /api/products` handler for a validated request:
   * publish `product` with retries, where `publish(k)` is what the `k`-th
   * publish call does and `clock(k)` the time it is stamped with. Returns the
   * answer, the payloads sent, one per call, and the waits slept.
   */
  method PublishProduct(product: Product, correlationId: string, publish: PublishCalls, clock: nat -> string)
    returns (resp: ProductResponse, sent: seq<EventPayload>, delays: seq<int>)
    ensures 1 <= |sent| <= MaxPublishAttempts && delays == Backoff(PublishBaseDelay, |sent| - 1)
    ensures sent == AttemptPayloads(product, correlationId, clock, |sent|)
    ensures FailedBefore(publish, |sent|)
    ensures resp.ProductCreated? <==> publish(|sent|).Ok?
    ensures resp.ProductCreated? ==> resp == ProductCreated(product, correlationId)
    ensures !resp.ProductCreated? ==>
              |sent| == MaxPublishAttempts && resp == PublishFailureResponse(publish(|sent|).error, correlationId)
  {
    var outcome, calls;
    outcome, calls, delays := RetryWithBackoff(publish, MaxPublishAttempts, PublishBaseDelay);
    sent := AttemptPayloads(product, correlationId, clock, calls);
    if outcome.Rethrown? {
      resp := PublishFailureResponse(outcome.error, correlationId);
    } else {
      resp := ProductCreated(product, correlationId);
    }
  }

  /**
   * `POST /api/products` behind `validateProduct`: an invalid request is
   * answered 400 and nothing is published; a valid one is published as its
   * trimmed product.
   */
  method CreateProduct(body: ProductRequest, correlationId: string, publish: PublishCalls, clock: nat -> string)
    returns (resp: ProductResponse, sent: seq<EventPayload>, delays: seq<int>)
    ensures !RequestValid(body) ==> resp == ValidationFailed(RequestErrors(body)) && sent == [] && delays == []
    ensures RequestValid(body) ==> 1 <= |sent| <= MaxPublishAttempts && delays == Backoff(PublishBaseDelay, |sent| - 1)
    ensures RequestValid(body) ==> sent == AttemptPayloads(TrimmedProduct(body), correlationId, clock, |sent|)
    ensures resp.ProductCreated? <==> RequestValid(body) && publish(|sent|).Ok?
    ensures resp.ProductCreated? ==> resp == ProductCreated(TrimmedProduct(body), correlationId)
    ensures RequestValid(body) ==> FailedBefore(publish, |sent|)
    ensures RequestValid(body) && !resp.ProductCreated? ==>
              |sent| == MaxPublishAttempts && resp == PublishFailureResponse(publish(|sent|).error, correlationId)
  {
    var gate := ValidateProduct(body);
    if gate.Rejected? {
      resp, sent, delays := ValidationFailed(gate.details), [], [];
      return;
    }
    resp, sent, delays := PublishProduct(TrimmedProduct(body), correlationId, publish, clock);
  }
}
