/**
 * The order service's event consumer: the subscription it declares, the
 * validation of a pushed product event, the correlation id it answers with,
 * and the order it derives from a valid event.
 */
module OrderService {
  import opened Wrappers
  import opened JsValues
  import opened Validation
  import opened OrderIds
  import Correlation

  /** Where the delivery substrate is asked to push events. */
  datatype Subscription = Subscription(pubsubname: string, topic: string, route: string)

  /** The route of the event handler. */
  const ProductEventRoute := "/api/orders/product-event"

  /** The subscriptions served at `/dapr/subscribe`. */
  function Subscriptions(): (subs: seq<Subscription>)
    ensures |subs| == 1
    ensures subs[0] == Subscription("pubsub", "product-events", ProductEventRoute)
  {
    [Subscription("pubsub", "product-events", ProductEventRoute)]
  }

  /** The fields of a pushed event (`req.body.data`) the handler reads. */
  datatype ProductEvent = ProductEvent(productId: JsValue, name: JsValue, price: JsValue, correlationId: JsValue)

  const EventRequired := "Event data is required"
  const ProductIdInvalid := "Product ID is required and must be a string"
  const NameInvalid := "Product name is required and must be a string"
  const PriceInvalid := "Product price is required and must be a positive number"

  /** An event the handler turns into an order. */
  predicate EventValid(e: ProductEvent) {
    IsNonEmptyString(e.productId) && IsNonEmptyString(e.name) && IsPositiveNumber(e.price)
  }

  /** The checks run on a present event, in the order they are run. */
  function EventChecks(e: ProductEvent): seq<Check> {
    [ Check(IsNonEmptyString(e.productId), ProductIdInvalid),
      Check(IsNonEmptyString(e.name), NameInvalid),
      Check(IsPositiveNumber(e.price), PriceInvalid) ]
  }

  /**
   * The errors reported for `req.body.data`: `None` is a falsy or absent
   * payload; a present payload reports every failing field check.
   */
  function EventErrors(data: Option<ProductEvent>): seq<string> {
    if data.None? then [EventRequired] else Violations(EventChecks(data.value))
  }

  /** `validateProductEvent`: pushes one message per failing check, or returns early on a missing event. */
  method ValidateProductEvent(data: Option<ProductEvent>) returns (errors: seq<string>)
    ensures errors == EventErrors(data)
  {
    errors := [];
    if data.None? {
      errors := errors + [EventRequired];
      return;
    }
    var event := data.value;
    var checks := EventChecks(event);
    if !Truthy(event.productId) || !event.productId.Str? {
      errors := errors + [ProductIdInvalid];
    }
    assert errors == Reported(checks[0]);
    if !Truthy(event.name) || !event.name.Str? {
      errors := errors + [NameInvalid];
    }
    assert errors == Reported(checks[0]) + Reported(checks[1]);
    if event.price == Missing || !event.price.Num? || event.price.n <= 0.0 {
      errors := errors + [PriceInvalid];
    }
    assert errors == Reported(checks[0]) + Reported(checks[1]) + Reported(checks[2]);
    ViolationsOfThree(checks[0], checks[1], checks[2]);
  }

  /** A missing event yields exactly the one "required" error and no field errors. */
  lemma MissingEventErrors()
    ensures EventErrors(None) == [EventRequired]
    ensures forall m :: m in EventErrors(None) ==> m !in [ProductIdInvalid, NameInvalid, PriceInvalid]
  {
  }

  /**
   * A present event gets at most one message per field, in the order
   * productId, name, price, and no message at all exactly when it is valid.
   */
  lemma PresentEventErrors(e: ProductEvent)
    ensures var errors := EventErrors(Some(e));
      && errors == Reported(EventChecks(e)[0]) + Reported(EventChecks(e)[1]) + Reported(EventChecks(e)[2])
      && |errors| <= 3
      && EventRequired !in errors
      && (errors == [] <==> EventValid(e))
  {
    ViolationsOfThree(EventChecks(e)[0], EventChecks(e)[1], EventChecks(e)[2]);
  }

  /** Each field's message is reported exactly when that field fails its check. */
  lemma EventErrorPerField(e: ProductEvent)
    ensures ProductIdInvalid in EventErrors(Some(e)) <==> !IsNonEmptyString(e.productId)
    ensures NameInvalid in EventErrors(Some(e)) <==> !IsNonEmptyString(e.name)
    ensures PriceInvalid in EventErrors(Some(e)) <==> !IsPositiveNumber(e.price)
  {
    var cs := EventChecks(e);
    ViolationsOfThreeReport(cs[0], cs[1], cs[2]);
  }

  /**
   * `event?.correlationId || correlationId`: the event's own correlation id
   * when it is truthy (whatever its type), otherwise the request's.
   */
  function EventCorrelationId(data: Option<ProductEvent>, requestId: string): (cid: JsValue)
    ensures data.Some? && Truthy(data.value.correlationId) ==> cid == data.value.correlationId
    ensures !(data.Some? && Truthy(data.value.correlationId)) ==> cid == Str(requestId)
  {
    if data.Some? && Truthy(data.value.correlationId) then data.value.correlationId else Str(requestId)
  }

  /** The order derived from an event. */
  datatype Order = Order(
    orderId: string,
    productId: string,
    productName: string,
    price: real,
    quantity: nat,
    total: real,
    timestamp: string,
    correlationId: JsValue)

  /** What the handler takes from its clock and random source for one delivery. */
  datatype Environment = Environment(nowMillis: nat, random: RandomBytes, timestamp: string, fault: Fault)

  /**
   * Where an unexpected exception, if any, interrupts the handler:
   * `IntakeFault` before it has answered 400 or built the order (the intake
   * logging), `ProcessingFault` after the order is built (the simulated
   * processing and the success logging).
   */
  datatype Fault = NoFault | IntakeFault | ProcessingFault

  /** The order record built from a valid event, with one unit at the event's price. */
  function BuildOrder(e: ProductEvent, cid: JsValue, env: Environment): (order: Order)
    requires EventValid(e)
    ensures order.productId == e.productId.s && order.productName == e.name.s && order.price == e.price.n
    ensures order.quantity == 1 && order.total == order.price * order.quantity as real
    ensures order.total > 0.0
    ensures order.orderId == OrderId(env.nowMillis, env.random) && order.timestamp == env.timestamp
    ensures order.correlationId == cid
  {
    Order(OrderId(env.nowMillis, env.random), e.productId.s, e.name.s, e.price.n, 1, e.price.n, env.timestamp, cid)
  }

  /** The handler's HTTP answer. */
  datatype OrderResponse =
    | EventRejected(details: seq<string>, correlationId: JsValue)
    | OrderAccepted(orderId: string, correlationId: JsValue)
    | ProcessingFailed(correlationId: JsValue)
  {
    function Status(): int {
      match this
      case EventRejected(_, _) => 400
      case OrderAccepted(_, _) => 200
      case ProcessingFailed(_) => 500
    }
  }

  /** One delivery's outcome: the answer, and the order record if one was built. */
  datatype Delivery = Delivery(response: OrderResponse, order: Option<Order>)

  /** The `/api/orders/product-event` handler for `req.body.data` and the request's correlation id. */
  function HandleProductEvent(data: Option<ProductEvent>, requestId: string, env: Environment): (d: Delivery)
    ensures d.order.Some? ==> data.Some? && EventValid(data.value)
  {
    var cid := EventCorrelationId(data, requestId);
    if env.fault == IntakeFault then
      Delivery(ProcessingFailed(Str(requestId)), None)
    else
      var errors := EventErrors(data);
      if errors != [] then
        Delivery(EventRejected(errors, cid), None)
      else
        PresentEventErrors(data.value);
        var order := BuildOrder(data.value, cid, env);
        if env.fault == ProcessingFault then
          Delivery(ProcessingFailed(Str(requestId)), Some(order))
        else
          Delivery(OrderAccepted(order.orderId, cid), Some(order))
  }

  /**
   * Correlation precedence across the asynchronous hop: a truthy id embedded
   * in the event wins over the delivery's header, which wins over a freshly
   * generated id; the id used is never falsy when generated ids are not empty.
   */
  lemma CorrelationPrecedence(data: Option<ProductEvent>, header: Option<string>, freshId: string)
    requires freshId != ""
    ensures var cid := EventCorrelationId(data, Correlation.RequestCorrelationId(header, freshId));
      && Truthy(cid)
      && (data.Some? && Truthy(data.value.correlationId) ==> cid == data.value.correlationId)
      && (!(data.Some? && Truthy(data.value.correlationId)) && header.Some? && header.value != "" ==>
            cid == Str(header.value))
      && (!(data.Some? && Truthy(data.value.correlationId)) && (header.None? || header.value == "") ==>
            cid == Str(freshId))
  {
    Correlation.RequestCorrelationIdStable(header, freshId, freshId);
  }

  /**
   * An event that fails validation is answered 400 with exactly the
   * validator's errors and the selected correlation id, and no order is built.
   */
  lemma InvalidEventRejected(data: Option<ProductEvent>, requestId: string, env: Environment)
    requires env.fault != IntakeFault
    requires data.None? || !EventValid(data.value)
    ensures var d := HandleProductEvent(data, requestId, env);
      && d.response == EventRejected(EventErrors(data), EventCorrelationId(data, requestId))
      && d.response.Status() == 400
      && d.response.details != []
      && d.order.None?
  {
    if data.Some? {
      PresentEventErrors(data.value);
    }
  }

  /**
   * A valid event processed without fault is answered 200 with the id of the
   * order built from it; the order copies the event's fields, has one unit
   * whose total is the price, and carries the selected correlation id, which
   * the answer repeats.
   */
  lemma ValidEventAccepted(e: ProductEvent, requestId: string, env: Environment)
    requires EventValid(e)
    requires env.fault == NoFault
    ensures var d := HandleProductEvent(Some(e), requestId, env);
      && d.response.Status() == 200
      && d.order.Some?
      && d.response == OrderAccepted(d.order.value.orderId, d.order.value.correlationId)
      && d.order.value.orderId == OrderId(env.nowMillis, env.random)
      && d.order.value.productId == e.productId.s
      && d.order.value.productName == e.name.s
      && d.order.value.price == e.price.n
      && d.order.value.quantity == 1
      && d.order.value.total == e.price.n
      && d.order.value.correlationId == EventCorrelationId(Some(e), requestId)
  {
    PresentEventErrors(e);
  }

  /**
   * The handler answers 500 exactly when an exception interrupts it before it
   * has answered 400, and that answer carries the request's own correlation
   * id, not the event's.
   */
  lemma FailureUsesRequestId(data: Option<ProductEvent>, requestId: string, env: Environment)
    ensures var d := HandleProductEvent(data, requestId, env);
      && (d.response.Status() == 500 <==>
            env.fault == IntakeFault || (env.fault == ProcessingFault && data.Some? && EventValid(data.value)))
      && (d.response.Status() == 500 ==> d.response == ProcessingFailed(Str(requestId)))
  {
    if data.Some? {
      PresentEventErrors(data.value);
    }
  }

  /**
   * The worked example: event `{productId: "p1", name: "Widget", price: 9.99,
   * correlationId: "abc"}` yields an order of one unit totalling 9.99 under
   * correlation id "abc", whatever the delivery's own id.
   */
  lemma WidgetExample(requestId: string, env: Environment)
    requires env.fault == NoFault
    ensures var d := HandleProductEvent(Some(ProductEvent(Str("p1"), Str("Widget"), Num(9.99), Str("abc"))), requestId, env);
      && d.response == OrderAccepted(OrderId(env.nowMillis, env.random), Str("abc"))
      && d.order.Some? && d.order.value.quantity == 1 && d.order.value.total == 9.99
      && d.order.value.productId == "p1" && d.order.value.productName == "Widget"
  {
    ValidEventAccepted(ProductEvent(Str("p1"), Str("Widget"), Num(9.99), Str("abc")), requestId, env);
  }
}
