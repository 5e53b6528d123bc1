/**
 * The TypeScript handler (lambda/person-lambda.ts): a strict validator and a
 * create-only handler that stores a timestamped record, then publishes a
 * "Person Created" event, mapping every thrown error to 400 or 500 by
 * whether its message contains "required".
 */
module PersonLambdaTs {
  import opened Wrappers
  import opened JsValues
  import opened Http
  import opened Store
  import opened Bus
  import opened PersonChecks

  /** The guards of `validatePersonData`, in the order they run. */
  const Checks: seq<Check> := [FirstName, LastName, PhoneNumber, Address, AddressFields]

  const EventSource: string := "person-service"
  const EventDetailType: string := "Person Created"

  /**
   * `validatePersonData`: the guards run in order and the first that fails
   * decides the error; a `null` payload throws a TypeError at the first
   * property read; a payload that passes every guard is returned unchanged.
   */
  function ValidatePersonData(data: JsonValue): (r: Result<JsonValue, string>)
    ensures data.JNull? ==> r == Failure(NullReadMessage)
    ensures !data.JNull? ==> (r.Success? <==> AllPass(Checks, data))
    ensures r.Success? ==> r.value == data
    ensures !data.JNull? && r.Failure? ==>
      exists i :: FirstFailure(Checks, i, data) && r.error == Message(Checks[i])
  {
    if data.JNull? then Failure(NullReadMessage)
    else if !Passes(FirstName, data) then
      assert FirstFailure(Checks, 0, data);
      Failure(Message(FirstName))
    else if !Passes(LastName, data) then
      assert FirstFailure(Checks, 1, data);
      Failure(Message(LastName))
    else if !Passes(PhoneNumber, data) then
      assert FirstFailure(Checks, 2, data);
      Failure(Message(PhoneNumber))
    else if !Passes(Address, data) then
      assert FirstFailure(Checks, 3, data);
      Failure(Message(Address))
    else if !Passes(AddressFields, data) then
      assert FirstFailure(Checks, 4, data);
      Failure(Message(AddressFields))
    else Success(data)
  }

  /** `validatePersonData(JSON.parse(event.body))`: a parse error propagates. */
  function ParseThenValidate(parsed: Result<JsonValue, string>): Result<JsonValue, string>
  {
    match parsed
    case Failure(message) => Failure(message)
    case Success(data) => ValidatePersonData(data)
  }

  /** The value of an address property that a guard has checked. */
  function AddressOf(data: JsonValue, field: string): JsonValue
  {
    AddressMember(data, field).GetOr(JNull)
  }

  /**
   * The item of `PutItemCommand`: the input's name and phone strings, the
   * five address fields and nothing else of the address, and one timestamp
   * as both `createdAt` and `updatedAt`.
   */
  function PersonItem(data: JsonValue, personId: string, timestamp: string): (item: StoredItem)
    requires ValidatePersonData(data).Success?
    ensures item.personId == personId
    ensures item.createdAt == item.updatedAt == Some(timestamp)
    ensures Member(data, "firstName") == Some(JStr(item.firstName))
    ensures Member(data, "lastName") == Some(JStr(item.lastName))
    ensures Member(data, "phoneNumber") == Some(JStr(item.phoneNumber))
    ensures item.address.Keys == {"street", "city", "province", "zipCode", "country"}
    ensures forall f :: f in item.address ==> AddressMember(data, f) == Some(item.address[f])
  {
    StoredItem(
      personId,
      StringOf(data, "firstName"),
      StringOf(data, "lastName"),
      StringOf(data, "phoneNumber"),
      map[
        "street" := AddressOf(data, "street"),
        "city" := AddressOf(data, "city"),
        "province" := AddressOf(data, "province"),
        "zipCode" := AddressOf(data, "zipCode"),
        "country" := AddressOf(data, "country")],
      Some(timestamp),
      Some(timestamp))
  }

  /**
   * `eventDetail`: the id, the name and phone strings, the whole input
   * address (extra properties included) and `createdAt`; no `updatedAt`.
   */
  function EventDetail(data: JsonValue, personId: string, timestamp: string): (detail: map<string, JsonValue>)
    requires ValidatePersonData(data).Success?
    ensures detail.Keys == {"personId", "firstName", "lastName", "phoneNumber", "address", "createdAt"}
    ensures detail["personId"] == JStr(personId) && detail["createdAt"] == JStr(timestamp)
    ensures Member(data, "firstName") == Some(detail["firstName"])
    ensures Member(data, "lastName") == Some(detail["lastName"])
    ensures Member(data, "phoneNumber") == Some(detail["phoneNumber"])
    ensures Member(data, "address") == Some(detail["address"])
  {
    map[
      "personId" := JStr(personId),
      "firstName" := JStr(StringOf(data, "firstName")),
      "lastName" := JStr(StringOf(data, "lastName")),
      "phoneNumber" := JStr(StringOf(data, "phoneNumber")),
      "address" := Member(data, "address").GetOr(JNull),
      "createdAt" := JStr(timestamp)]
  }

  /** The entry of `PutEventsCommand`. */
  function PersonCreated(data: JsonValue, personId: string, timestamp: string): BusEvent
    requires ValidatePersonData(data).Success?
  {
    BusEvent(EventSource, EventDetailType, JObj(EventDetail(data, personId, timestamp)))
  }

  /** The 201 body: a message followed by the event detail. */
  function CreatedBody(data: JsonValue, personId: string, timestamp: string): JsonValue
    requires ValidatePersonData(data).Success?
  {
    JObj(EventDetail(data, personId, timestamp)["message" := JStr("Person created successfully")])
  }

  /** The catch block: 400 when the message mentions "required", otherwise 500. */
  function CatchResponse(message: string): Response
  {
    Response(
      if Includes(message, "required") then 400 else 500,
      JObj(map["error" := JStr(if message == "" then "Internal server error" else message)]))
  }

  /** Every guard failure of a non-null payload is reported as a client error. */
  lemma ValidationFailureIsClientError(data: JsonValue)
    requires !data.JNull? && ValidatePersonData(data).Failure?
    ensures CatchResponse(ValidatePersonData(data).error).statusCode == 400
  {
    var i :| FirstFailure(Checks, i, data) && ValidatePersonData(data).error == Message(Checks[i]);
    MessageSaysRequired(Checks[i]);
  }

  /** A `null` payload fails before any guard runs and is reported as a server error. */
  lemma NullPayloadIsServerError()
    ensures CatchResponse(ValidatePersonData(JNull).error).statusCode == 500
  {
    NullReadMessageLacksRequired();
  }

  /**
   * `handler`. The parse outcome of the body, the fresh id, the clock reading
   * and the outcomes of the two service calls are inputs; `publishRejected`
   * is a normally answered `PutEventsCommand` whose reply reports the entry as
   * failed, a reply the handler does not look at.
   */
  method Handler(
    table: Table, bus: EventBus, event: ApiEvent, parsed: Result<JsonValue, string>,
    personId: string, timestamp: string, putFault: Option<string>, publishFault: Option<string>,
    publishRejected: bool)
    returns (resp: Response)
    requires table.Valid()
    modifies table, bus
    ensures table.Valid()
    // No body: 400 and no service call.
    ensures !TruthyText(event.body) ==>
      && resp == Response(400, JObj(map["error" := JStr("Request body is required")]))
      && table.items == old(table.items) && bus.events == old(bus.events)
    // A parse or guard failure: nothing is written or published.
    ensures TruthyText(event.body) && ParseThenValidate(parsed).Failure? ==>
      && resp == CatchResponse(ParseThenValidate(parsed).error)
      && table.items == old(table.items) && bus.events == old(bus.events)
    ensures TruthyText(event.body) && parsed.Success? && !parsed.value.JNull? && ValidatePersonData(parsed.value).Failure? ==>
      resp.statusCode == 400
    ensures TruthyText(event.body) && parsed == Success(JNull) ==> resp.statusCode == 500
    // A valid payload: put, then publish only if the put succeeded.
    ensures TruthyText(event.body) && ParseThenValidate(parsed).Success? ==>
      var data := parsed.value;
      && table.items == (if putFault.None? then old(table.items)[personId := PersonItem(data, personId, timestamp)] else old(table.items))
      && bus.events == (
        if putFault.None? && publishFault.None? && !publishRejected then old(bus.events) + [PersonCreated(data, personId, timestamp)]
        else old(bus.events))
      && resp == (
        if putFault.Some? then CatchResponse(putFault.value)
        else if publishFault.Some? then CatchResponse(publishFault.value)
        else Response(201, CreatedBody(data, personId, timestamp)))
    // Write before publish: an event is only ever seen with its record stored.
    ensures bus.events != old(bus.events) ==>
      && putFault.None? && personId in table.items
      && bus.events == old(bus.events) + [PersonCreated(parsed.value, personId, timestamp)]
    // The dual write: a failed publish leaves the stored record in place.
    ensures TruthyText(event.body) && ParseThenValidate(parsed).Success? && putFault.None? && publishFault.Some? ==>
      && table.items == old(table.items)[personId := PersonItem(parsed.value, personId, timestamp)]
      && bus.events == old(bus.events)
      && resp.statusCode != 201
    // A rejected entry is not noticed: 201 with the record stored and no event seen.
    ensures TruthyText(event.body) && ParseThenValidate(parsed).Success? && putFault.None? && publishFault.None? && publishRejected ==>
      && table.items == old(table.items)[personId := PersonItem(parsed.value, personId, timestamp)]
      && bus.events == old(bus.events)
      && resp.statusCode == 201
    ensures resp.statusCode in {201, 400, 500}
  {
    if !TruthyText(event.body) {
      return Response(400, JObj(map["error" := JStr("Request body is required")]));
    }
    var personData := ParseThenValidate(parsed);
    if personData.Failure? {
      if parsed.Success? && !parsed.value.JNull? {
        ValidationFailureIsClientError(parsed.value);
      } else if parsed == Success(JNull) {
        NullPayloadIsServerError();
      }
      return CatchResponse(personData.error);
    }
    var data := personData.value;
    var putErr := table.Put(PersonItem(data, personId, timestamp), putFault);
    if putErr.Some? {
      return CatchResponse(putErr.value);
    }
    var publishErr, _ := bus.Publish(PersonCreated(data, personId, timestamp), publishFault, publishRejected);
    if publishErr.Some? {
      return CatchResponse(publishErr.value);
    }
    resp := Response(201, CreatedBody(data, personId, timestamp));
  }
}
