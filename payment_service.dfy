/**
 * Payment initialisation (src/payments/payment.service.ts). The user, the
 * event and the ticket are looked up in that order; the amount in minor
 * units and a `PAY-<ms>-<n>` reference are computed; the payload goes to
 * the payment gateway, and a PENDING payment row is saved only when the
 * gateway reports success.
 */
module PaymentService {
  import opened Wrappers
  import opened Strings
  import opened Tables
  import opened Response
  import opened UserEntity
  import opened EventService

  datatype PaymentStatus = PaymentPending | PaymentSuccessful | PaymentFailed
  datatype WebhookStatus = WebhookPending | WebhookReceived | WebhookFailed

  /** What `initializePayment` sends to the gateway. */
  datatype PaymentPayload = PaymentPayload(
    email: string,
    amount: int,
    currency: string,
    callbackUrl: string,
    reference: string,
    userId: nat,
    eventId: nat,
    ticketId: nat)

  /**
   * How the gateway call ends: an HTTP error carrying a response (with the
   * response's `message`, if any), an error without a response, or a reply
   * with its `status` flag and `data.authorization_url`.
   */
  datatype GatewayOutcome =
    | HttpError(message: Option<string>)
    | NoResponse
    | Replied(status: bool, authorizationUrl: Option<string>)

  /** A row of the payment table. */
  datatype PaymentRow = PaymentRow(
    id: nat,
    userId: nat,
    eventId: nat,
    ticketId: nat,
    amount: int,
    status: PaymentStatus,
    reference: string,
    authorizationUrl: string,
    currency: string,
    retryAttempts: nat,
    webhookStatus: WebhookStatus,
    payerEmail: string)

  const UserMissing := NewAppError("User does not exist", 404)
  const EventMissing := NewAppError("Event does not exist", 404)
  const TicketMissing := NewAppError("Ticket does not exist", 404)
  const InitFailed := NewAppError("Failed to initialize payment with Paystack", 500)
  const UnexpectedInit := NewAppError("Unexpected error during payment initialization", 500)

  /** The 502 for a gateway HTTP error: its message when non-empty, else a fixed text. */
  function GatewayError(message: Option<string>): (e: AppError)
    ensures e.statusCode == 502 && e.status == "error"
    ensures message.Some? && message.value != "" ==> e.message == message.value
    ensures message.None? || message.value == "" ==> e.message == "Paystack API Error"
  {
    NewAppError(if message.Some? && message.value != "" then message.value else "Paystack API Error", 502)
  }

  /** `ticketExist.price ? ticketExist.price * 100 : 0`: the price in minor units. */
  function Amount(price: Option<int>): (amount: int)
    ensures amount % 100 == 0
    ensures amount == 0 <==> price.None? || price.value == 0
  {
    if price.Some? && price.value != 0 then price.value * 100 else 0
  }

  /** The amount converts back to the ticket price whenever one is set. */
  lemma AmountRoundTrip(price: int)
    ensures Amount(Some(price)) / 100 == price
    ensures Amount(Some(price)) == 0 ==> price == 0
  {
  }

  /** `Math.floor(Math.random() * 1000)` for a draw `r` in [0, 1). */
  function RandomSuffix(r: real): (n: nat)
    requires 0.0 <= r < 1.0
    ensures n < 1000
    ensures n as real <= r * 1000.0 < n as real + 1.0
  {
    (r * 1000.0).Floor
  }

  /** `PAY-${Date.now()}-${n}` */
  function Reference(nowMs: nat, n: nat): (s: string)
    ensures StartsWith(s, "PAY-")
  {
    "PAY-" + DecimalText(nowMs) + "-" + DecimalText(n)
  }

  /** Reads a reference back into its time and number, if it has the `PAY-<digits>-<digits>` shape. */
  function ParseReference(s: string): Option<(nat, nat)> {
    var parts := Split(s, '-');
    if |parts| == 3 && parts[0] == "PAY" && parts[1] != [] && parts[2] != []
       && (forall i :: 0 <= i < |parts[1]| ==> IsDigit(parts[1][i]))
       && (forall i :: 0 <= i < |parts[2]| ==> IsDigit(parts[2][i]))
    then Some((ParseDecimal(parts[1]), ParseDecimal(parts[2])))
    else None
  }

  /** A reference reads back as the time and number it was made from. */
  lemma ReferenceRoundTrip(nowMs: nat, n: nat)
    ensures ParseReference(Reference(nowMs, n)) == Some((nowMs, n))
  {
    var a, b := DecimalText(nowMs), DecimalText(n);
    var parts := ["PAY", a, b];
    assert Join(parts[2..], '-') == b;
    assert Join(parts[1..], '-') == a + "-" + b;
    assert Join(parts, '-') == Reference(nowMs, n);
    SplitJoin(parts, '-');
    ParseDecimalText(nowMs);
    ParseDecimalText(n);
  }

  /** Different (time, number) pairs give different references. */
  lemma ReferenceInjective(m1: nat, n1: nat, m2: nat, n2: nat)
    requires Reference(m1, n1) == Reference(m2, n2)
    ensures m1 == m2 && n1 == n2
  {
    ReferenceRoundTrip(m1, n1);
    ReferenceRoundTrip(m2, n2);
  }

  /** The payload sent to the gateway for the found user, event and ticket. */
  function Payload(user: User, event: EventRow, ticket: TicketRow, reference: string, callbackUrl: string): (p: PaymentPayload)
    ensures p.email == user.email && p.currency == "NGN" && p.reference == reference
    ensures p.amount == Amount(ticket.price)
    ensures p.userId == user.id && p.eventId == event.id && p.ticketId == ticket.id
  {
    PaymentPayload(user.email, Amount(ticket.price), "NGN", callbackUrl, reference, user.id, event.id, ticket.id)
  }

  /** The row saved after a successful gateway reply. */
  function PendingPayment(id: nat, p: PaymentPayload, authorizationUrl: string): (row: PaymentRow)
    ensures row.status == PaymentPending && row.webhookStatus == WebhookPending
    ensures row.retryAttempts == 0 && row.currency == "NGN"
    ensures row.amount == p.amount && row.reference == p.reference && row.payerEmail == p.email
    ensures row.userId == p.userId && row.eventId == p.eventId && row.ticketId == p.ticketId
    ensures row.authorizationUrl == authorizationUrl && row.id == id
  {
    PaymentRow(id, p.userId, p.eventId, p.ticketId, p.amount, PaymentPending, p.reference,
               authorizationUrl, "NGN", 0, WebhookPending, p.email)
  }

  /**
   * The end of the `try` block for a gateway outcome: the error thrown, the
   * error passed to `next` (only for the falsy-status `AppError`), or the
   * authorization URL of the row to save.
   */
  datatype InitResult = Saved(authorizationUrl: string) | Failed(error: AppError, forwarded: Option<AppError>)

  function AfterGateway(outcome: GatewayOutcome): (r: InitResult)
    ensures r.Saved? <==> outcome.Replied? && outcome.status && outcome.authorizationUrl.Some?
    ensures r.Failed? ==> r.error.statusCode == 502 || r.error == UnexpectedInit
    ensures r.Failed? && r.error.statusCode == 502 <==> outcome.HttpError?
    ensures r.Failed? && r.forwarded.Some? <==> outcome.Replied? && !outcome.status
    ensures r.Failed? && r.forwarded.Some? ==> r.forwarded.value == InitFailed
    ensures r.Saved? ==> outcome.authorizationUrl == Some(r.authorizationUrl)
    ensures outcome.HttpError? ==> r == Failed(GatewayError(outcome.message), None)
  {
    match outcome
    case HttpError(message) => Failed(GatewayError(message), None)
    case NoResponse => Failed(UnexpectedInit, None)
    case Replied(status, url) =>
      if !status then Failed(UnexpectedInit, Some(InitFailed))
      else if url.None? then Failed(UnexpectedInit, None)
      else Saved(url.value)
  }

  /** No gateway outcome lets a payment be saved without a successful reply. */
  lemma SavedOnlyOnSuccess(outcome: GatewayOutcome)
    ensures AfterGateway(outcome).Saved? ==> outcome.Replied? && outcome.status
    ensures !outcome.Replied? ==> AfterGateway(outcome).Failed?
  {
  }

  class PaymentService {
    var users: seq<User>
    var events: seq<EventRow>
    var tickets: seq<TicketRow>
    var payments: seq<PaymentRow>
    var nextPaymentId: nat

    ghost predicate Valid()
      reads this
    {
      && (forall i :: 0 <= i < |payments| ==> payments[i].id < nextPaymentId)
      && (forall i, j :: 0 <= i < j < |payments| ==> payments[i].id != payments[j].id)
    }

    constructor (users: seq<User>, events: seq<EventRow>, tickets: seq<TicketRow>)
      ensures Valid() && this.users == users && this.events == events && this.tickets == tickets
      ensures payments == []
    {
      this.users, this.events, this.tickets := users, events, tickets;
      payments, nextPaymentId := [], 0;
    }

    /**
     * `initializePayment` for the given user, event and ticket ids, at
     * `Date.now() == nowMs` with `Math.random() == draw`. `sent` is the
     * payload given to the gateway, if it was called; `forwarded` is the
     * error passed to `next`.
     */
    method InitializePayment(userId: nat, eventId: nat, ticketId: nat, nowMs: nat, draw: real,
                             callbackUrl: string, gateway: PaymentPayload -> GatewayOutcome)
      returns (r: Result<PaymentRow, AppError>, sent: Option<PaymentPayload>, forwarded: Option<AppError>)
      requires Valid() && 0.0 <= draw < 1.0
      modifies this
      ensures Valid()
      ensures users == old(users) && events == old(events) && tickets == old(tickets)
      ensures r.Err? ==> payments == old(payments)
      ensures r.Ok? ==> payments == old(payments) + [r.value]
      ensures var u := FindFirst(users, (x: User) => x.id == userId);
        u.None? ==> r == Err(UserMissing) && sent.None? && forwarded.None?
      ensures var u := FindFirst(users, (x: User) => x.id == userId);
        var e := FindFirst(events, (x: EventRow) => x.id == eventId);
        u.Some? && e.None? ==> r == Err(EventMissing) && sent.None? && forwarded.None?
      ensures var u := FindFirst(users, (x: User) => x.id == userId);
        var e := FindFirst(events, (x: EventRow) => x.id == eventId);
        var t := FindFirst(tickets, (x: TicketRow) => x.id == ticketId);
        u.Some? && e.Some? && t.None? ==> r == Err(TicketMissing) && sent.None? && forwarded.None?
      ensures var u := FindFirst(users, (x: User) => x.id == userId);
        var e := FindFirst(events, (x: EventRow) => x.id == eventId);
        var t := FindFirst(tickets, (x: TicketRow) => x.id == ticketId);
        u.Some? && e.Some? && t.Some? ==>
          var p := Payload(users[u.value], events[e.value], tickets[t.value],
                           Reference(nowMs, RandomSuffix(draw)), callbackUrl);
          && sent == Some(p)
          && match AfterGateway(gateway(p))
             case Saved(url) => r == Ok(PendingPayment(old(nextPaymentId), p, url)) && forwarded.None?
             case Failed(error, next) => r == Err(error) && forwarded == next
    {
      sent, forwarded := None, None;
      var u := FindFirst(users, (x: User) => x.id == userId);
      if u.None? {
        return Err(UserMissing), sent, forwarded;
      }
      var e := FindFirst(events, (x: EventRow) => x.id == eventId);
      if e.None? {
        return Err(EventMissing), sent, forwarded;
      }
      var t := FindFirst(tickets, (x: TicketRow) => x.id == ticketId);
      if t.None? {
        return Err(TicketMissing), sent, forwarded;
      }
      var amount := Amount(tickets[t.value].price);
      var reference := Reference(nowMs, RandomSuffix(draw));
      var paymentPayload := Payload(users[u.value], events[e.value], tickets[t.value], reference, callbackUrl);
      sent := Some(paymentPayload);
      var outcome := AfterGateway(gateway(paymentPayload));
      match outcome
      case Failed(error, next) =>
        r, forwarded := Err(error), next;
      case Saved(url) =>
        var payment := PendingPayment(nextPaymentId, paymentPayload, url);
        payments := payments + [payment];
        nextPaymentId := nextPaymentId + 1;
        r := Ok(payment);
    }
  }
}
