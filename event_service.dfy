/**
 * Event creation (src/events/event.service.ts). A chain of checks rejects
 * the request with a 400 before anything is written; then the event row is
 * saved, and then, only when more than one ticket price is supplied, a loop
 * saves one ticket row per entry and can still stop with a 400. There is no
 * transaction: on such a late stop the event and the tickets saved before
 * it stay in their tables.
 */
module EventService {
  import opened Wrappers
  import opened Tables
  import opened Response

  datatype EventStatus = Available | Free | Pending | Approved | Cancelled

  /** A date as given: a parsable date at a millisecond instant, or text `new Date` cannot parse. */
  datatype DateInput = At(ms: int) | Unparsable

  type Image = seq<bv8>

  /** The event fields the service passes through unchanged (`...the_rest`). */
  datatype EventDetails = EventDetails(
    description: string,
    location: string,
    time: string,
    freeTicket: Option<int>,
    ownerId: Option<nat>)

  /** `event_data: Partial<Event>`. */
  datatype EventInput = EventInput(
    title: string,
    date: Option<DateInput>,
    eventImage: Option<Image>,
    capacity: Option<int>,
    status: Option<EventStatus>,
    details: EventDetails)

  /** A row of the event table; it has no capacity column. */
  datatype EventRow = EventRow(
    id: nat,
    title: string,
    date: Option<DateInput>,
    eventImage: Option<Image>,
    status: EventStatus,
    details: EventDetails)

  /** One entry of `ticket_price`. */
  datatype TicketInput = TicketInput(ticketType: string, price: Option<int>, day: Option<string>)

  /** A row of the ticket-price table, linked to its event by id. */
  datatype TicketRow = TicketRow(id: nat, eventId: nat, ticketType: string, price: Option<int>, day: Option<string>)

  /** 3 MiB, the largest accepted image. */
  const MaxImageBytes: int := 3 * 1024 * 1024

  const DuplicateTitle := NewAppError("Event already exists with that title", 400)
  const PastDate := NewAppError("Event date cannot be in the past", 400)
  const BadCapacity := NewAppError("Event capacity must be at least 1", 400)
  const ImageTooLarge := NewAppError("Image size should not be more than 3MB", 400)
  const NegativePrice := NewAppError("Ticket price must be a non-negative value", 400)
  const Unexpected := NewAppError("An unexpected error occurred while creating the event", 500)

  function DuplicateType(ticketType: string): AppError {
    NewAppError("Duplicate ticket type \"" + ticketType + "\" found for the same event", 400)
  }

  /** The `catch` block: an `AppError` is rethrown as is, anything else becomes a generic 500. */
  function WrapError(t: Thrown): (e: AppError)
    ensures t.App? ==> e == t.err
    ensures t.Other? ==> e.statusCode == 500 && e.message == "An unexpected error occurred while creating the event"
  {
    match t
    case App(err, _) => err
    case Other(_, _) => Unexpected
  }

  /** `if (date) { if (new Date(date) < new Date()) ... }`: an unparsable date compares false. */
  predicate DateInPast(date: Option<DateInput>, nowMs: int) {
    date.Some? && date.value.At? && date.value.ms < nowMs
  }

  /** `capacity && capacity < 1`: zero is falsy, so only a negative capacity is rejected. */
  predicate CapacityRejected(capacity: Option<int>) {
    capacity.Some? && capacity.value != 0 && capacity.value < 1
  }

  predicate ImageRejected(image: Option<Image>) {
    image.Some? && |image.value| > MaxImageBytes
  }

  predicate TitleTaken(events: seq<EventRow>, title: string) {
    exists i :: 0 <= i < |events| && events[i].title == title
  }

  /**
   * The error of the checks made before the event is saved, in their order:
   * duplicate title, past date, capacity, image size, then the entity
   * validation (`validateEntity`, given as the error it throws, if any).
   */
  function PreSaveRejection(events: seq<EventRow>, input: EventInput, nowMs: int, entityCheck: Option<Thrown>)
    : (r: Option<AppError>)
    ensures TitleTaken(events, input.title) ==> r == Some(DuplicateTitle)
    ensures !TitleTaken(events, input.title) && DateInPast(input.date, nowMs) ==> r == Some(PastDate)
    ensures (!TitleTaken(events, input.title) && !DateInPast(input.date, nowMs) && CapacityRejected(input.capacity))
      ==> r == Some(BadCapacity)
    ensures (!TitleTaken(events, input.title) && !DateInPast(input.date, nowMs) && !CapacityRejected(input.capacity)
             && ImageRejected(input.eventImage))
      ==> r == Some(ImageTooLarge)
    ensures (!TitleTaken(events, input.title) && !DateInPast(input.date, nowMs) && !CapacityRejected(input.capacity)
             && !ImageRejected(input.eventImage) && entityCheck.Some?)
      ==> r == Some(WrapError(entityCheck.value))
    ensures r.None? <==>
      !TitleTaken(events, input.title) && !DateInPast(input.date, nowMs)
      && !CapacityRejected(input.capacity) && !ImageRejected(input.eventImage) && entityCheck.None?
    ensures r.Some? ==> r.value.statusCode == 400 || (entityCheck.Some? && r.value == WrapError(entityCheck.value))
  {
    if FindFirst(events, (e: EventRow) => e.title == input.title).Some? then Some(DuplicateTitle)
    else if DateInPast(input.date, nowMs) then Some(PastDate)
    else if CapacityRejected(input.capacity) then Some(BadCapacity)
    else if ImageRejected(input.eventImage) then Some(ImageTooLarge)
    else if entityCheck.Some? then Some(WrapError(entityCheck.value))
    else None
  }

  /** Capacity: absent and zero pass, any negative value is rejected. */
  lemma CapacityRule(c: int)
    ensures !CapacityRejected(None) && !CapacityRejected(Some(0))
    ensures CapacityRejected(Some(c)) <==> c < 0
  {
  }

  /** An image of exactly 3 MiB passes; one byte more is rejected. */
  lemma ImageSizeBoundary(image: Image)
    ensures |image| == 3145728 ==> !ImageRejected(Some(image))
    ensures |image| == 3145729 ==> ImageRejected(Some(image))
  {
  }

  /**
   * The event row saved for an input: whatever status the caller sent, it is
   * AVAILABLE. The capacity is passed to `create` but the entity has no such
   * column, so it is not stored.
   */
  function SavedEvent(id: nat, input: EventInput): (e: EventRow)
    ensures e.status == Available
    ensures e.id == id && e.title == input.title && e.date == input.date && e.details == input.details
    ensures e.eventImage == input.eventImage
  {
    EventRow(id, input.title, input.date, input.eventImage, Available, input.details)
  }

  /** `ticket_price.filter(tp => tp.ticket_type === ticketType).length` */
  function CountType(list: seq<TicketInput>, ticketType: string): nat {
    if list == [] then 0
    else (if list[0].ticketType == ticketType then 1 else 0) + CountType(list[1..], ticketType)
  }

  /** An entry stops the loop: a negative price, or a type that occurs more than once in the whole list. */
  predicate EntryRejected(list: seq<TicketInput>, entry: TicketInput) {
    (entry.price.Some? && entry.price.value < 0) || CountType(list, entry.ticketType) > 1
  }

  /** The index at which the loop stops, if it stops. */
  function FirstRejected(list: seq<TicketInput>): (r: Option<nat>)
    ensures r.Some? ==> r.value < |list| && EntryRejected(list, list[r.value])
    ensures forall k :: 0 <= k < |list| && (r.None? || k < r.value) ==> !EntryRejected(list, list[k])
  {
    FindFirst(list, (e: TicketInput) => EntryRejected(list, e))
  }

  lemma FirstRejectedAt(list: seq<TicketInput>, k: nat)
    requires k < |list| && EntryRejected(list, list[k])
    requires forall m :: 0 <= m < k ==> !EntryRejected(list, list[m])
    ensures FirstRejected(list) == Some(k) && SavedCount(list) == k
  {
  }

  /** How many entries the loop saves. */
  function SavedCount(list: seq<TicketInput>): (n: nat)
    ensures n <= |list|
  {
    match FirstRejected(list)
    case None => |list|
    case Some(k) => k
  }

  /** The error the loop stops with at entry `k`. */
  function LoopError(list: seq<TicketInput>, k: nat): AppError
    requires k < |list|
  {
    if list[k].price.Some? && list[k].price.value < 0 then NegativePrice
    else DuplicateType(list[k].ticketType)
  }

  /** The ticket rows for `entries`, linked to `eventId`, with ids from `firstId` on. */
  function TicketRows(entries: seq<TicketInput>, eventId: nat, firstId: nat): (r: seq<TicketRow>)
    ensures |r| == |entries|
  {
    if entries == [] then []
    else [TicketRow(firstId, eventId, entries[0].ticketType, entries[0].price, entries[0].day)]
         + TicketRows(entries[1..], eventId, firstId + 1)
  }

  /** Row `k` carries entry `k`'s fields, the event's id and id `firstId + k`. */
  lemma {:induction false} TicketRowsMeaning(entries: seq<TicketInput>, eventId: nat, firstId: nat, k: nat)
    requires k < |entries|
    ensures var r := TicketRows(entries, eventId, firstId)[k];
      && r.id == firstId + k && r.eventId == eventId
      && r.ticketType == entries[k].ticketType && r.price == entries[k].price && r.day == entries[k].day
  {
    if k > 0 {
      TicketRowsMeaning(entries[1..], eventId, firstId + 1, k - 1);
    }
  }

  lemma {:induction false} TicketRowsSnoc(entries: seq<TicketInput>, e: TicketInput, eventId: nat, firstId: nat)
    ensures TicketRows(entries + [e], eventId, firstId)
      == TicketRows(entries, eventId, firstId) + [TicketRow(firstId + |entries|, eventId, e.ticketType, e.price, e.day)]
  {
    var a := TicketRows(entries + [e], eventId, firstId);
    var b := TicketRows(entries, eventId, firstId) + [TicketRow(firstId + |entries|, eventId, e.ticketType, e.price, e.day)];
    assert |a| == |b|;
    forall k | 0 <= k < |a| ensures a[k] == b[k] {
      TicketRowsMeaning(entries + [e], eventId, firstId, k);
      if k < |entries| {
        TicketRowsMeaning(entries, eventId, firstId, k);
        assert (entries + [e])[k] == entries[k];
      }
    }
  }

  lemma {:induction false} CountTypeOfMember(list: seq<TicketInput>, k: nat)
    requires k < |list|
    ensures CountType(list, list[k].ticketType) >= 1
  {
    if k > 0 {
      CountTypeOfMember(list[1..], k - 1);
    }
  }

  lemma {:induction false} CountTypeTwo(list: seq<TicketInput>, i: nat, j: nat)
    requires i < j < |list| && list[i].ticketType == list[j].ticketType
    ensures CountType(list, list[i].ticketType) >= 2
  {
    if i > 0 {
      CountTypeTwo(list[1..], i - 1, j - 1);
    } else {
      CountTypeOfMember(list[1..], j - 1);
    }
  }

  lemma {:induction false} CountTypeAtMostOne(list: seq<TicketInput>, t: string)
    requires forall i, j :: 0 <= i < j < |list| ==> list[i].ticketType != list[j].ticketType
    ensures CountType(list, t) <= 1
  {
    if list != [] {
      CountTypeAtMostOne(list[1..], t);
      if list[0].ticketType == t {
        CountTypeAbsent(list[1..], t);
      }
    }
  }

  lemma {:induction false} CountTypeAbsent(list: seq<TicketInput>, t: string)
    requires forall k :: 0 <= k < |list| ==> list[k].ticketType != t
    ensures CountType(list, t) == 0
  {
    if list != [] {
      CountTypeAbsent(list[1..], t);
    }
  }

  /**
   * Every saved entry has a non-negative (or absent) price and a type that
   * occurs exactly once in the whole list: no entry of a repeated type is
   * ever saved.
   */
  lemma SavedEntriesAreClean(list: seq<TicketInput>, k: nat)
    requires k < SavedCount(list)
    ensures list[k].price.None? || list[k].price.value >= 0
    ensures CountType(list, list[k].ticketType) == 1
  {
    CountTypeOfMember(list, k);
  }

  /** A repeated type stops the loop at or before its first occurrence. */
  lemma RepeatedTypeStopsEarly(list: seq<TicketInput>, i: nat, j: nat)
    requires i < j < |list| && list[i].ticketType == list[j].ticketType
    ensures FirstRejected(list).Some? && FirstRejected(list).value <= i
  {
    CountTypeTwo(list, i, j);
    assert EntryRejected(list, list[i]);
  }

  /** With distinct types and no negative price, the loop saves every entry. */
  lemma CleanListSavedWhole(list: seq<TicketInput>)
    requires forall i, j :: 0 <= i < j < |list| ==> list[i].ticketType != list[j].ticketType
    requires forall k :: 0 <= k < |list| ==> list[k].price.None? || list[k].price.value >= 0
    ensures FirstRejected(list).None? && SavedCount(list) == |list|
  {
    forall k | 0 <= k < |list| ensures !EntryRejected(list, list[k]) {
      CountTypeAtMostOne(list, list[k].ticketType);
    }
  }

  predicate HasEvent(events: seq<EventRow>, id: nat) {
    exists j :: 0 <= j < |events| && events[j].id == id
  }

  lemma HasEventGrows(events: seq<EventRow>, e: EventRow, id: nat)
    requires HasEvent(events, id)
    ensures HasEvent(events + [e], id)
  {
    var j :| 0 <= j < |events| && events[j].id == id;
    assert (events + [e])[j].id == id;
  }

  ghost predicate TablesValid(events: seq<EventRow>, tickets: seq<TicketRow>, nextEventId: nat, nextTicketId: nat) {
    && (forall i :: 0 <= i < |events| ==> events[i].id < nextEventId)
    && (forall i, j :: 0 <= i < j < |events| ==> events[i].id != events[j].id)
    && (forall i :: 0 <= i < |tickets| ==> tickets[i].id < nextTicketId)
    && (forall i, j :: 0 <= i < j < |tickets| ==> tickets[i].id != tickets[j].id)
    && (forall i :: 0 <= i < |tickets| ==> HasEvent(events, tickets[i].eventId))
  }

  /** Saving a ticket row with the next id for an existing event keeps the tables valid. */
  lemma AppendTicketValid(events: seq<EventRow>, tickets: seq<TicketRow>, nextEventId: nat, nextTicketId: nat, row: TicketRow)
    requires TablesValid(events, tickets, nextEventId, nextTicketId)
    requires row.id == nextTicketId && HasEvent(events, row.eventId)
    ensures TablesValid(events, tickets + [row], nextEventId, nextTicketId + 1)
  {
  }

  /** Saving an event row with the next id keeps the tables valid. */
  lemma AppendEventValid(events: seq<EventRow>, tickets: seq<TicketRow>, nextEventId: nat, nextTicketId: nat, e: EventRow)
    requires TablesValid(events, tickets, nextEventId, nextTicketId)
    requires e.id == nextEventId
    ensures TablesValid(events + [e], tickets, nextEventId + 1, nextTicketId)
    ensures HasEvent(events + [e], e.id)
  {
    forall i | 0 <= i < |tickets| ensures HasEvent(events + [e], tickets[i].eventId) {
      HasEventGrows(events, e, tickets[i].eventId);
    }
    assert (events + [e])[|events|] == e;
  }

  /** One step of the ticket loop: saving entry `k` extends the saved rows by that entry's row and keeps the tables valid. */
  lemma SaveTicketStep(events: seq<EventRow>, before: seq<TicketRow>, nextEventId: nat, firstId: nat,
                       list: seq<TicketInput>, k: nat, eventId: nat)
    requires k < |list| && HasEvent(events, eventId)
    requires TablesValid(events, before + TicketRows(list[..k], eventId, firstId), nextEventId, firstId + k)
    ensures var row := TicketRow(firstId + k, eventId, list[k].ticketType, list[k].price, list[k].day);
      && before + TicketRows(list[..k], eventId, firstId) + [row] == before + TicketRows(list[..k + 1], eventId, firstId)
      && TablesValid(events, before + TicketRows(list[..k], eventId, firstId) + [row], nextEventId, firstId + k + 1)
  {
    var row := TicketRow(firstId + k, eventId, list[k].ticketType, list[k].price, list[k].day);
    TicketRowsSnoc(list[..k], list[k], eventId, firstId);
    assert list[..k + 1] == list[..k] + [list[k]];
    AppendTicketValid(events, before + TicketRows(list[..k], eventId, firstId), nextEventId, firstId + k, row);
  }

  /** The tables of the service. */
  class EventService {
    var events: seq<EventRow>
    var tickets: seq<TicketRow>
    var nextEventId: nat
    var nextTicketId: nat

    /** Ids are distinct and below the next id; every ticket row references an event row. */
    ghost predicate Valid()
      reads this
    {
      TablesValid(events, tickets, nextEventId, nextTicketId)
    }

    constructor ()
      ensures Valid() && events == [] && tickets == []
    {
      events, tickets := [], [];
      nextEventId, nextTicketId := 0, 0;
    }

    /**
     * The ticket loop of `createEvent`: one row per entry, linked to
     * `eventId`, until the first entry with a negative price or a repeated
     * type; the rows saved before that entry stay saved.
     */
    method SaveTickets(list: seq<TicketInput>, eventId: nat) returns (err: Option<AppError>)
      requires Valid() && HasEvent(events, eventId)
      modifies this
      ensures Valid()
      ensures events == old(events) && nextEventId == old(nextEventId)
      ensures tickets == old(tickets) + TicketRows(list[..SavedCount(list)], eventId, old(nextTicketId))
      ensures err == (match FirstRejected(list)
                      case None => None
                      case Some(k) => Some(LoopError(list, k)))
    {
      ghost var firstId := nextTicketId;
      ghost var before := tickets;
      for k := 0 to |list|
        invariant events == old(events) && nextEventId == old(nextEventId)
        invariant nextTicketId == firstId + k
        invariant tickets == before + TicketRows(list[..k], eventId, firstId)
        invariant FirstRejected(list).None? || k <= FirstRejected(list).value
        invariant Valid()
      {
        var price := list[k];
        if price.price.Some? && price.price.value < 0 {
          FirstRejectedAt(list, k);
          return Some(NegativePrice);
        }
        var duplicateType := CountType(list, price.ticketType) > 1;
        if duplicateType {
          FirstRejectedAt(list, k);
          return Some(DuplicateType(price.ticketType));
        }
        var row := TicketRow(nextTicketId, eventId, price.ticketType, price.price, price.day);
        SaveTicketStep(events, before, nextEventId, firstId, list, k, eventId);
        tickets := tickets + [row];
        nextTicketId := nextTicketId + 1;
      }
      assert list[..|list|] == list;
      assert FirstRejected(list).None?;
      err := None;
    }

    /**
     * `createEvent(event_data, ticket_price)` at time `nowMs`, with the
     * outcome of `validateEntity` as `entityCheck`.
     */
    method CreateEvent(input: EventInput, ticketPrice: Option<seq<TicketInput>>, nowMs: int, entityCheck: Option<Thrown>)
      returns (r: Result<EventRow, AppError>)
      requires Valid()
      modifies this
      ensures Valid()
      ensures var rejected := PreSaveRejection(old(events), input, nowMs, entityCheck);
        rejected.Some? ==> r == Err(rejected.value) && events == old(events) && tickets == old(tickets)
      ensures var rejected := PreSaveRejection(old(events), input, nowMs, entityCheck);
        rejected.None? ==> events == old(events) + [SavedEvent(old(nextEventId), input)]
      ensures var rejected := PreSaveRejection(old(events), input, nowMs, entityCheck);
        rejected.None? && (ticketPrice.None? || |ticketPrice.value| <= 1) ==>
          tickets == old(tickets) && r == Ok(SavedEvent(old(nextEventId), input))
      ensures var rejected := PreSaveRejection(old(events), input, nowMs, entityCheck);
        rejected.None? && ticketPrice.Some? && |ticketPrice.value| > 1 ==>
          var list := ticketPrice.value;
          && tickets == old(tickets) + TicketRows(list[..SavedCount(list)], old(nextEventId), old(nextTicketId))
          && r == (match FirstRejected(list)
                   case None => Ok(SavedEvent(old(nextEventId), input))
                   case Some(k) => Err(LoopError(list, k)))
    {
      var rejected := PreSaveRejection(events, input, nowMs, entityCheck);
      if rejected.Some? {
        return Err(rejected.value);
      }
      var saveEvent := SavedEvent(nextEventId, input);
      AppendEventValid(events, tickets, nextEventId, nextTicketId, saveEvent);
      events := events + [saveEvent];
      nextEventId := nextEventId + 1;
      r := Ok(saveEvent);
      if ticketPrice.Some? && |ticketPrice.value| > 1 {
        var err := SaveTickets(ticketPrice.value, saveEvent.id);
        if err.Some? {
          r := Err(err.value);
        }
      }
    }
  }
}
