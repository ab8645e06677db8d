/** The payment bridge of `server/routes/payment.js`: requesting a payment
    intent for an order, and applying the processor's webhook events to the
    orders. */
module Payment {
  import opened Common

  /** The order states the admin order table offers. */
  datatype OrderStatus = Pending | Processing | Shipped | Delivered | Cancelled

  /** The states in which the order page offers its owner a cancel button. */
  predicate Cancellable(s: OrderStatus) {
    s == Pending || s == Processing
  }

  datatype OrderItem = OrderItem(product: ProductId, name: string, image: string,
                                 price: real, quantity: nat)

  datatype Address = Address(street: string, city: string, state: string,
                             zipCode: string, country: string)

  /** The processor's receipt stored on a paid order. */
  datatype PaymentResult = PaymentResult(id: string, status: string, updateTime: string)

  datatype Order = Order(
    id: OrderId,
    user: UserId,
    orderItems: seq<OrderItem>,
    shippingAddress: Address,
    paymentMethod: string,
    itemsPrice: real,
    shippingPrice: real,
    taxPrice: real,
    totalPrice: real,
    isPaid: bool,
    paidAt: Option<int>,
    paymentResult: Option<PaymentResult>,
    status: OrderStatus,
    trackingNumber: Option<string>,
    createdAt: int)

  type OrderStore = map<OrderId, Order>

  // ---------------------------------------------------------------------
  // Creating a payment intent

  /** What the handler asks the processor for: an amount in cents, the
      currency, and the order and user as metadata. */
  datatype IntentRequest = IntentRequest(amount: int, currency: string,
                                         orderId: OrderId, userId: UserId)

  /** `Math.round(totalPrice * 100)`: dollars to whole cents. */
  function Cents(total: real): (c: int)
    ensures total * 100.0 - 0.5 < c as real <= total * 100.0 + 0.5
  {
    Round(total * 100.0)
  }

  /** A total that is a whole number of cents converts exactly. */
  lemma CentsExact(total: real, n: int)
    requires total * 100.0 == n as real
    ensures Cents(total) == n
  {
    RoundWhole(n);
  }

  /** A larger total never asks for fewer cents. */
  lemma CentsMonotone(a: real, b: real)
    requires a <= b
    ensures Cents(a) <= Cents(b)
  {
    RoundMonotone(a * 100.0, b * 100.0);
  }

  /** POST /api/payment/create-payment-intent. */
  function CreatePaymentIntent(orders: OrderStore, orderId: OrderId, requester: UserId)
    : (r: Result<IntentRequest>)
    ensures orderId !in orders ==> r == Err(OrderNotFound)
    ensures orderId in orders && orders[orderId].user != requester ==> r == Err(NotAuthorized)
    ensures r.Ok? <==> orderId in orders && orders[orderId].user == requester
    ensures r.Ok? ==>
      && r.value.orderId == orderId
      && r.value.userId == requester
      && r.value.currency == "usd"
      && r.value.amount == Cents(orders[orderId].totalPrice)
  {
    if orderId !in orders then Err(OrderNotFound)
    else
      var order := orders[orderId];
      if order.user != requester then Err(NotAuthorized)
      else Ok(IntentRequest(Cents(order.totalPrice), "usd", orderId, requester))
  }

  // ---------------------------------------------------------------------
  // The webhook

  /** The payment intent carried by an event; `orderId` is the metadata the
      intent was created with, absent for intents made elsewhere. */
  datatype Intent = Intent(id: string, status: string, orderId: Option<OrderId>)

  datatype Event = Event(kind: string, intent: Intent)

  const Succeeded := "payment_intent.succeeded"
  const Failed := "payment_intent.payment_failed"

  /** A 400 for an event whose signature does not check out; otherwise
      `{received: true}`. */
  datatype WebhookResponse = BadSignature | Received

  datatype WebhookReply = WebhookReply(response: WebhookResponse, orders: OrderStore)

  /** The order with its payment recorded; `now` and `nowIso` are the
      clock's reading as a timestamp and as an ISO string. */
  function MarkPaid(o: Order, intent: Intent, now: int, nowIso: string): (p: Order)
    ensures p.isPaid && p.paidAt == Some(now) && p.status == Processing
    ensures p.paymentResult == Some(PaymentResult(intent.id, intent.status, nowIso))
    ensures SamePurchase(o, p)
  {
    o.(isPaid := true,
       paidAt := Some(now),
       paymentResult := Some(PaymentResult(intent.id, intent.status, nowIso)),
       status := Processing)
  }

  /** Everything but the four payment and status fields is the same. */
  predicate SamePurchase(a: Order, b: Order) {
    && a.id == b.id && a.user == b.user && a.orderItems == b.orderItems
    && a.shippingAddress == b.shippingAddress && a.paymentMethod == b.paymentMethod
    && a.itemsPrice == b.itemsPrice && a.shippingPrice == b.shippingPrice
    && a.taxPrice == b.taxPrice && a.totalPrice == b.totalPrice
    && a.trackingNumber == b.trackingNumber && a.createdAt == b.createdAt
  }

  /** POST /api/payment/webhook. The signature check against the raw body is
      the processor library's; it enters as `sigValid`. */
  function Webhook(sigValid: bool, event: Event, orders: OrderStore, now: int, nowIso: string)
    : (r: WebhookReply)
    ensures !sigValid ==> r == WebhookReply(BadSignature, orders)
    ensures sigValid ==> r.response == Received
    ensures r.orders.Keys == orders.Keys
    ensures r.orders != orders ==>
      sigValid && event.kind == Succeeded && event.intent.orderId.Some?
      && event.intent.orderId.value in orders
    ensures sigValid && event.kind == Succeeded && event.intent.orderId.Some?
            && event.intent.orderId.value in orders ==>
      var id := event.intent.orderId.value;
      && r.orders == orders[id := r.orders[id]]
      && r.orders[id].isPaid && r.orders[id].paidAt == Some(now)
      && r.orders[id].paymentResult
         == Some(PaymentResult(event.intent.id, event.intent.status, nowIso))
      && r.orders[id].status == Processing
      && SamePurchase(orders[id], r.orders[id])
  {
    if !sigValid then WebhookReply(BadSignature, orders)
    else if event.kind == Succeeded then
      match event.intent.orderId
      case Some(id) =>
        if id in orders then
          WebhookReply(Received, orders[id := MarkPaid(orders[id], event.intent, now, nowIso)])
        else WebhookReply(Received, orders)
      case None => WebhookReply(Received, orders)
    else if event.kind == Failed then
      // only logged
      WebhookReply(Received, orders)
    else
      // unhandled types are logged too
      WebhookReply(Received, orders)
  }

  /** No event changes any order other than the one its metadata names. */
  lemma WebhookTouchesOneOrder(sigValid: bool, event: Event, orders: OrderStore,
                               now: int, nowIso: string, other: OrderId)
    requires other in orders
    requires event.intent.orderId != Some(other)
    ensures Webhook(sigValid, event, orders, now, nowIso).orders[other] == orders[other]
  {
  }

  /** Success is applied whatever the order's state: a cancelled or
      delivered order is moved back to processing, and so becomes
      cancellable again. */
  lemma PaidOrderIsCancellable(orders: OrderStore, id: OrderId, intent: Intent,
                               now: int, nowIso: string)
    requires id in orders && intent.orderId == Some(id)
    ensures var after := Webhook(true, Event(Succeeded, intent), orders, now, nowIso).orders[id];
            after.status == Processing && Cancellable(after.status)
  {
  }

  /** The client offers no cancel button on a cancelled or delivered order,
      but a success that arrives late moves it back to processing, where the
      button is offered again. */
  lemma LateSuccessReopens(orders: OrderStore, id: OrderId, intent: Intent,
                           now: int, nowIso: string)
    requires id in orders && intent.orderId == Some(id)
    requires orders[id].status == Cancelled || orders[id].status == Delivered
    ensures !Cancellable(orders[id].status)
    ensures Cancellable(Webhook(true, Event(Succeeded, intent), orders, now, nowIso).orders[id].status)
  {
  }

  /** A redelivered event with the same clock reading changes nothing more. */
  lemma WebhookIdempotent(sigValid: bool, event: Event, orders: OrderStore,
                          now: int, nowIso: string)
    ensures var once := Webhook(sigValid, event, orders, now, nowIso).orders;
            Webhook(sigValid, event, once, now, nowIso).orders == once
  {
  }
}
