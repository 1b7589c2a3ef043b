/**
 * The two services together: what the product service publishes is what the
 * order service subscribes to and accepts, and the producer's correlation id
 * survives the asynchronous hop.
 */
module Pipeline {
  import opened JsValues
  import opened Wrappers
  import Correlation
  import OrderService
  import ProductService

  /** A published payload as the order service reads it from the delivered envelope's `data`. */
  function AsDelivered(e: ProductService.EventPayload): (event: OrderService.ProductEvent)
    ensures event.productId == Str(e.productId) && event.name == Str(e.name)
    ensures event.price == Num(e.price) && event.correlationId == Str(e.correlationId)
  {
    OrderService.ProductEvent(Str(e.productId), Str(e.name), Num(e.price), Str(e.correlationId))
  }

  /** The order service subscribes, on its event route, to the topic the product service publishes to. */
  lemma SubscriptionMatchesPublisher()
    ensures OrderService.Subscriptions()
         == [OrderService.Subscription(ProductService.PubsubName, ProductService.Topic, OrderService.ProductEventRoute)]
  {
  }

  /** Every event published for a valid creation request passes the order service's validation. */
  lemma PublishedEventsAreValid(body: ProductService.ProductRequest, correlationId: string, timestamp: string)
    requires ProductService.RequestValid(body)
    ensures var e := AsDelivered(ProductService.PublishedPayload(ProductService.TrimmedProduct(body), timestamp, correlationId));
      OrderService.EventValid(e) && OrderService.EventErrors(Some(e)) == []
  {
    var e := AsDelivered(ProductService.PublishedPayload(ProductService.TrimmedProduct(body), timestamp, correlationId));
    OrderService.PresentEventErrors(e);
  }

  /**
   * End to end: the order built from a delivered event of a valid creation
   * request holds the trimmed id and name and the price, totals the price,
   * and is filed, and answered, under the producer's request correlation id,
   * whatever id the delivery itself carries.
   */
  lemma CorrelationSurvivesHop(body: ProductService.ProductRequest, header: Option<string>, freshId: string,
                               timestamp: string, deliveryId: string, env: OrderService.Environment)
    requires ProductService.RequestValid(body)
    requires freshId != ""
    requires env.fault == OrderService.NoFault
    ensures var cid := Correlation.RequestCorrelationId(header, freshId);
      var p := ProductService.TrimmedProduct(body);
      var d := OrderService.HandleProductEvent(Some(AsDelivered(ProductService.PublishedPayload(p, timestamp, cid))), deliveryId, env);
      && d.order.Some?
      && d.order.value.productId == Trim(body.id.s)
      && d.order.value.productName == Trim(body.name.s)
      && d.order.value.price == body.price.n == d.order.value.total
      && d.order.value.correlationId == Str(cid)
      && d.response == OrderService.OrderAccepted(d.order.value.orderId, Str(cid))
  {
    var cid := Correlation.RequestCorrelationId(header, freshId);
    Correlation.RequestCorrelationIdStable(header, freshId, freshId);
    var e := AsDelivered(ProductService.PublishedPayload(ProductService.TrimmedProduct(body), timestamp, cid));
    PublishedEventsAreValid(body, cid, timestamp);
    OrderService.ValidEventAccepted(e, deliveryId, env);
  }

  /**
   * Redelivery is not deduplicated: the payloads of a request's retried
   * publish calls differ only in their timestamps, so every delivered copy
   * yields an order with the same product, price and correlation id.
   */
  lemma RetriedPublishesDuplicateOrders(product: ProductService.Product, correlationId: string, clock: nat -> string,
                                        n: nat, i: nat, j: nat, envI: OrderService.Environment, envJ: OrderService.Environment)
    requires i < n && j < n
    requires product.id != "" && product.name != "" && product.price > 0.0
    requires envI.fault == OrderService.NoFault && envJ.fault == OrderService.NoFault
    ensures var sent := ProductService.AttemptPayloads(product, correlationId, clock, n);
      var a := OrderService.HandleProductEvent(Some(AsDelivered(sent[i])), correlationId, envI).order;
      var b := OrderService.HandleProductEvent(Some(AsDelivered(sent[j])), correlationId, envJ).order;
      && a.Some? && b.Some?
      && a.value.(orderId := "", timestamp := "") == b.value.(orderId := "", timestamp := "")
  {
    var sent := ProductService.AttemptPayloads(product, correlationId, clock, n);
    OrderService.ValidEventAccepted(AsDelivered(sent[i]), correlationId, envI);
    OrderService.ValidEventAccepted(AsDelivered(sent[j]), correlationId, envJ);
  }
}
