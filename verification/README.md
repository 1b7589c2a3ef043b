# Product events: publish, retry, validate, derive orders

A Dafny model of the decision core of two small Express services joined by a
Dapr publish/subscribe channel:

- the **product service** (`services/product-service/server.js`) validates a
  `POST /api/products` request, trims its id and name, publishes a
  `product-events` event through the Dapr sidecar with bounded retries and
  exponential backoff, and maps a failed publish to 503 (connection refused,
  retry after 30 s) or 500;
- the **order service** (`services/order-service/server.js`) declares its one
  subscription, re-validates every pushed event, picks the correlation id to
  answer with (the event's own, else the request's), and derives an order of
  one unit whose total is the price.

JavaScript values are modelled by `JsValues.JsValue` (`Missing`, `Str`, `Num`,
`Other`), so the validators' truthiness and `typeof` tests are stated exactly;
`JsValues.Trim` is `String.prototype.trim` over the WhiteSpace and
LineTerminator code points. A pushed event's `req.body.data` is an
`Option<ProductEvent>`: `None` for a falsy payload, `Some` for any truthy one,
its fields being what property access yields (`Missing` for a payload that is
not an object).

The two validators build their error lists step by step, so they are methods
(`OrderService.ValidateProductEvent`, `ProductService.ValidateProduct`) proved
equal to a specification that lists the messages of the failing checks in
order (`Validation.Violations`). `retryWithBackoff` is a method with the
source's loop (`Retry.RetryWithBackoff`): the operation is the sequence of
outcomes of its successive calls, and the sleeps are returned as a list of
delays. The order handler and the payload, order and response records are
functions.

Time, randomness and failures are parameters: `Date.now()` and the four
random bytes of the order id, ISO timestamps (one per publish attempt, since
the payload is built inside the retried call), the fresh correlation id, the
outcome of each publish call, and the point at which an unexpected exception
interrupts the order handler (`OrderService.Fault`).

The JSON body of the product service's 400 answer carries no correlation id; the event fields
are `productId`, `name`, `price`, `timestamp`, `correlationId`; the order's
correlation id is the event's `correlationId` whenever that is truthy, even
when it is not a string.

## Model

| member | source | states |
|---|---|---|
| `OrderService.Subscriptions` | services/order-service/server.js:52-66 | exactly one descriptor: pubsub `pubsub`, topic `product-events`, route `/api/orders/product-event` |
| `Pipeline.SubscriptionMatchesPublisher` | services/order-service/server.js:53-59 | the subscription list is exactly one descriptor: the component and topic the product service publishes to, on the order service's event route |
| `OrderService.ValidateProductEvent` | services/order-service/server.js:70-89 | the pushed-error list equals the ordered list of failing checks (or the single "required" error for a falsy event) |
| `OrderService.MissingEventErrors` | services/order-service/server.js:73-76 | a falsy event gets exactly one error, "Event data is required", and no field error |
| `OrderService.PresentEventErrors` | services/order-service/server.js:78-88 | a present event gets one optional message per field in the order productId, name, price; at most 3; empty iff productId and name are non-empty strings and price a positive number |
| `OrderService.EventErrorPerField` | services/order-service/server.js:78-86 | each field's message is reported iff that field fails its check |
| `OrderService.EventCorrelationId` | services/order-service/server.js:97 | the event's correlation id when truthy, else the request's |
| `OrderService.CorrelationPrecedence` | services/order-service/server.js:97 | event id beats the delivery's header, which beats a fresh id; the id used is always truthy |
| `OrderService.BuildOrder` | services/order-service/server.js:120-129 | the order copies productId, name and price, has quantity 1 and total = price × quantity > 0, and carries the selected correlation id |
| `OrderService.HandleProductEvent` | services/order-service/server.js:92-160 | an order is only ever built from an event that passed validation |
| `OrderService.InvalidEventRejected` | services/order-service/server.js:105-117 | an invalid event is answered 400 with exactly the validator's (non-empty) errors and the selected correlation id, and no order is built |
| `OrderService.ValidEventAccepted` | services/order-service/server.js:119-145 | a valid event is answered 200 with the built order's id and correlation id; the order has the event's fields, one unit, total = price |
| `OrderService.FailureUsesRequestId` | services/order-service/server.js:147-158 | the answer is 500 iff an exception interrupts the handler before a 400, and it carries the request's correlation id, not the event's |
| `OrderService.WidgetExample` | services/order-service/server.js:119-145 | event p1/Widget/9.99/"abc" yields one unit totalling 9.99 under "abc", answered 200 |
| `OrderIds.Decimal` | services/order-service/server.js:121 | the time prints as at least one decimal digit, one digit exactly below 10 |
| `OrderIds.DecimalDenotes` | services/order-service/server.js:121 | the printed digits denote the time itself |
| `OrderIds.DecimalNoLeadingZero` | services/order-service/server.js:121 | the time's numeral has no leading zero unless the time is 0 |
| `OrderIds.Hex` | services/order-service/server.js:121 | the random bytes print as two lower-case hex digits each |
| `OrderIds.HexDenotes` | services/order-service/server.js:121 | the printed hex pairs denote the random bytes themselves, in order |
| `OrderIds.DecimalInjective` | services/order-service/server.js:121 | distinct times print differently |
| `OrderIds.HexInjective` | services/order-service/server.js:121 | distinct byte strings print differently |
| `OrderIds.OrderId` | services/order-service/server.js:121 | the id is `order-`, decimal digits that denote the time, one `-`, and lower-case hex digit pairs that denote the random bytes |
| `OrderIds.OrderIdInjective` | services/order-service/server.js:121 | two order ids with four random bytes each coincide only for the same millisecond and the same bytes |
| `Correlation.RequestCorrelationId` | services/product-service/server.js:25 | the header value when present and non-empty, else the fresh id |
| `Correlation.RequestCorrelationIdStable` | services/order-service/server.js:23-25 | the id is non-empty, and sending back the echoed header keeps the same id |
| `JsValues.Trim` | services/product-service/server.js:48 | the trimmed string is no longer than the input and neither starts nor ends with whitespace; `TrimIsInfix` characterises it fully |
| `JsValues.TrimStart` | services/product-service/server.js:48 | the result is a suffix of the input, everything cut is whitespace, and it does not start with whitespace |
| `JsValues.TrimEnd` | services/product-service/server.js:51 | the result is a prefix of the input, everything cut is whitespace, and it does not end with whitespace |
| `JsValues.TrimEmptyIffBlank` | services/product-service/server.js:48-52 | `trim()` is empty iff every character is whitespace |
| `JsValues.TrimIsInfix` | services/product-service/server.js:95-96 | the trimmed string is a contiguous slice of the input, and every character of the input outside that slice is whitespace |
| `JsValues.TrimIdempotent` | services/product-service/server.js:95-96 | trimming twice is trimming once |
| `Validation.Violations` | services/product-service/server.js:46-56 | at most one message per check, and none iff every check passes |
| `Validation.ViolationsAppend` | services/product-service/server.js:48-56 | checks run one after another report their messages one after another |
| `Validation.ViolationsOfThree` | services/order-service/server.js:78-86 | three checks report the first's message, then the second's, then the third's |
| `Validation.ViolationsReport` | services/order-service/server.js:78-88 | a message is reported iff some failing check carries it |
| `Validation.ViolationsOfThreeReport` | services/product-service/server.js:48-56 | among three checks with distinct messages, each message is reported iff its check fails |
| `ProductService.ValidateProduct` | services/product-service/server.js:44-64 | hands on iff the request is valid; otherwise answers with exactly the ordered, non-empty error list |
| `ProductService.RequestErrorsInOrder` | services/product-service/server.js:48-56 | one optional message per field, in the order id, name, price; at most 3 |
| `ProductService.RequestErrorsPerField` | services/product-service/server.js:48-55 | a field's message is among the errors iff that field fails its check |
| `ProductService.BlankFieldRejected` | services/product-service/server.js:48 | a string id is rejected iff it is made only of whitespace |
| `ProductService.TrimmedProduct` | services/product-service/server.js:94-98 | the product holds the trimmed id and name, both non-empty, and the positive price as sent |
| `ProductService.TrimmedProductIsTrimmed` | services/product-service/server.js:95-96 | the product's id and name have no surrounding whitespace left |
| `ProductService.PublishedPayload` | services/product-service/server.js:106-112 | the payload carries the product's id as `productId`, its name and price, the attempt's timestamp and the request's correlation id |
| `ProductService.AttemptPayloads` | services/product-service/server.js:103-122 | one payload per publish call, identical but for each call's timestamp |
| `ProductService.PublishFailureResponse` | services/product-service/server.js:137-148 | code `ECONNREFUSED` gives 503 with retryAfter 30, any other failure 500; both carry the correlation id |
| `ProductService.PublishProduct` | services/product-service/server.js:93-149 | the product is published 1 to 3 times, the same payload each time but for its timestamp, with the backoff waits between; answered 200 with the product iff a call succeeded, otherwise, after all 3 calls failed, 503 or 500 by the last error |
| `ProductService.CreateProduct` | services/product-service/server.js:90-150 | an invalid request is answered 400 with its errors and nothing is published; a valid one publishes its trimmed product with the backoff waits, every call before the last failing, and is answered 200 with it iff the last call succeeded, otherwise after 3 calls with the 503/500 mapping of the last error |
| `Retry.RetryWithBackoff` | services/product-service/server.js:67-77 | at most `maxRetries` calls, stopping at the first success and returning its value; after `maxRetries` failures the last error is re-thrown unchanged; `calls - 1` waits following the backoff schedule; none when the first call succeeds; no call at all when `maxRetries < 1` |
| `Retry.Backoff` | services/product-service/server.js:73 | the schedule of `n` waits has length `n` |
| `Retry.BackoffAt` | services/product-service/server.js:73 | the wait after failed attempt `i + 1` is `baseDelay * 2^i` |
| `Retry.BackoffDoubles` | services/product-service/server.js:73 | each wait is twice the previous one |
| `Retry.BackoffTotal` | services/product-service/server.js:72-74 | `n` waits take `baseDelay * (2^n - 1)` in all |
| `Retry.DefaultSchedule` | services/product-service/server.js:67 | with the defaults the waits are 1000 then 2000, 3000 in all |
| `Pipeline.AsDelivered` | services/order-service/server.js:96 | the delivered event's fields are the published payload's, as a string, a string, a number and a string |
| `Pipeline.PublishedEventsAreValid` | services/order-service/server.js:78-88 | every event published for a valid creation request passes the order service's validation |
| `Pipeline.CorrelationSurvivesHop` | services/order-service/server.js:96-145 | the order built from a published event holds the trimmed id and name and the price as total, and is filed and answered under the producer's correlation id |
| `Pipeline.RetriedPublishesDuplicateOrders` | services/product-service/server.js:103-122 | delivered copies of a request's retried publishes yield orders that agree on everything but id and timestamp |

## Left out

- Express setup, `app.listen`, `/health` and the global error handlers: fixed responses with no decisions.
- The request-logging part of the correlation middleware is output only; the JSON body parser (`express.json`) is treated as always parsing the body, and its 10 MB size limit is not modelled (see `Pipeline.AsDelivered`).
- `Pipeline.AsDelivered`: assumes the pushed request body is parsed, so that `req.body.data` is the published payload; `express.json` parses only bodies whose content type it accepts (`application/json` by default), and a delivery the parser skips would leave `req.body` empty and be answered 400 "Event data is required". The parser's content-type filter and the sidecar's envelope type are not modelled.
- Structured logging (`log`, `console.log`, JSON serialisation): output only.
- Response headers: every answer of both services carries the request's correlation id in the `x-correlation-id` header, set by the correlation middleware before any route runs; the response datatypes model only the JSON body, so on the order side an answer whose body carries the event's id while its header carries the request's id is not represented.
- JavaScript strings are sequences of UTF-16 code units and JSON can carry lone surrogates; a Dafny `string` holds only Unicode scalar values, so such strings are not represented (a lone surrogate would be a non-whitespace, truthy character to every modelled check).
- The `axios.post` call itself, its URL, `Content-Type` and outbound `x-correlation-id` headers and its 5000 ms timeout: each call is only its outcome, `Ok` or `Err` with the error's `code`.
- The `setTimeout` waits: the backoff waits are returned as a list of delays, and the order handler's 100 ms processing delay is dropped.
- `Date.now()`, `new Date().toISOString()`, `crypto.randomUUID()` and `crypto.randomBytes(4)`: their values are parameters, not generated; uniqueness of random values is not modelled.
- IEEE-754 numbers: a price is a real; `NaN` (which passes `price <= 0` as false) and infinities are not modelled.
- `Retry.RetryWithBackoff`: `maxRetries` and `baseDelay` are integers; a fractional `maxRetries`, for which the loop can run out without re-throwing, is not modelled.
- Duplicate `x-correlation-id` headers, which Node joins into one string: the header is one optional string.
- Exceptions in the order handler are a parameter saying where one occurs; which statement throws is not modelled. In the product handler only publish failures reach the catch block, since nothing else in it can throw once the request is valid.
- Concurrency between requests: each request is handled on its own, and nothing is shared.
