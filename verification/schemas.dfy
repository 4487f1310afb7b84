/** The ad event record of the ingestion side and its field constraints:
    `device` and `event_type` are closed string enumerations, and `revenue`
    is an optional non-negative amount that defaults to 0.0 when omitted.
    Validation reports every failing field, as a schema validator does. */
module Schemas {
  import opened Wrappers

  const Devices: set<string> := {"mobile", "desktop", "console", "tablet"}
  const EventTypes: set<string> := {"impression", "click", "conversion"}

  /** How the revenue field arrives: left out, given as null, or a number. */
  datatype RevenueInput = Omitted | Null | Given(amount: real)

  /** The fields of an event before validation. `ts` is in seconds. */
  datatype EventInput = EventInput(
    eventId: string, ts: int, userId: string, adId: int,
    device: string, geo: string, eventType: string, revenue: RevenueInput)

  /** A validated event; `revenue` is None when null was given. */
  datatype AdEvent = AdEvent(
    eventId: string, ts: int, userId: string, adId: int,
    device: string, geo: string, eventType: string, revenue: Option<real>)

  /** One failed field constraint. */
  datatype FieldError = BadDevice(device: string) | BadEventType(eventType: string) | NegativeRevenue(amount: real)

  /** The error of the device field, if any. */
  function DeviceErrors(input: EventInput): seq<FieldError>
  {
    if input.device in Devices then [] else [BadDevice(input.device)]
  }

  function EventTypeErrors(input: EventInput): seq<FieldError>
  {
    if input.eventType in EventTypes then [] else [BadEventType(input.eventType)]
  }

  /** Only a given number is range-checked: an omitted field takes the
      default and null is allowed. */
  function RevenueErrors(input: EventInput): seq<FieldError>
  {
    match input.revenue
    case Given(x) => if x >= 0.0 then [] else [NegativeRevenue(x)]
    case _ => []
  }

  /** All failed constraints, in field order. */
  function FieldErrors(input: EventInput): (errs: seq<FieldError>)
    ensures BadDevice(input.device) in errs <==> input.device !in Devices
    ensures BadEventType(input.eventType) in errs <==> input.eventType !in EventTypes
    ensures (exists x :: NegativeRevenue(x) in errs) <==> input.revenue.Given? && input.revenue.amount < 0.0
    ensures |errs| <= 3
  {
    DeviceErrors(input) + EventTypeErrors(input) + RevenueErrors(input)
  }

  /** The revenue value a validated event carries. */
  function RevenueValue(r: RevenueInput): Option<real>
  {
    match r
    case Omitted => Some(0.0)
    case Null => None
    case Given(x) => Some(x)
  }

  /** Validation of one event: the event with its fields as given (revenue
      defaulted), or the list of every field that broke a constraint. */
  function Validate(input: EventInput): (r: Result<AdEvent, seq<FieldError>>)
    ensures r.Ok? <==>
      && input.device in Devices
      && input.eventType in EventTypes
      && (input.revenue.Given? ==> input.revenue.amount >= 0.0)
    ensures r.Ok? ==>
      && r.value.eventId == input.eventId && r.value.ts == input.ts
      && r.value.userId == input.userId && r.value.adId == input.adId
      && r.value.device == input.device && r.value.geo == input.geo
      && r.value.eventType == input.eventType
      && (input.revenue.Omitted? ==> r.value.revenue == Some(0.0))
      && (input.revenue.Null? ==> r.value.revenue == None)
      && (input.revenue.Given? ==> r.value.revenue == Some(input.revenue.amount))
    ensures r.Err? ==> r.error == FieldErrors(input) && |r.error| > 0
  {
    var errs := FieldErrors(input);
    if errs == [] then
      Ok(AdEvent(input.eventId, input.ts, input.userId, input.adId,
                 input.device, input.geo, input.eventType, RevenueValue(input.revenue)))
    else
      Err(errs)
  }

  /** A validated event written back out as input, with null for an absent
      revenue. */
  function ToInput(ev: AdEvent): EventInput
  {
    EventInput(ev.eventId, ev.ts, ev.userId, ev.adId, ev.device, ev.geo, ev.eventType,
               match ev.revenue
               case None => Null
               case Some(x) => Given(x))
  }

  /** Validating a validated event again gives the same event back. */
  lemma RevalidateRoundTrip(input: EventInput)
    requires Validate(input).Ok?
    ensures Validate(ToInput(Validate(input).value)) == Validate(input)
  {
  }

  /** The constraints do not tie revenue to the event type: a click with a
      positive revenue is accepted as it is. */
  lemma RevenueNotTiedToEventType()
    ensures Validate(EventInput("e", 0, "u", 7, "mobile", "US-NY", "click", Given(5.0)))
         == Ok(AdEvent("e", 0, "u", 7, "mobile", "US-NY", "click", Some(5.0)))
  {
  }
}
