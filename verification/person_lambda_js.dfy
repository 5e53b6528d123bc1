/**
 * The JavaScript handler (lambda/person-lambda.js): a four-guard validator and
 * a handler that dispatches on the method, lists the table on GET, stores an
 * item and publishes a "PersonCreated" event on POST, and turns every thrown
 * error into 500.
 */
module PersonLambdaJs {
  import opened Wrappers
  import opened JsValues
  import opened Http
  import opened Store
  import opened Bus
  import opened PersonChecks

  /** The guards of `validatePersonData`, in the order they run; the address fields are not checked. */
  const Checks: seq<Check> := [FirstName, LastName, PhoneNumber, Address]

  const EventSource: string := "com.example.person"
  const EventDetailType: string := "PersonCreated"

  /**
   * `validatePersonData`: the guards run in order and the first that fails
   * decides the error; a `null` payload throws a TypeError at the first
   * property read; a payload that passes every guard is returned unchanged.
   */
  function ValidatePersonData(data: JsonValue): (r: Result<JsonValue, string>)
    ensures data.JNull? ==> r == Failure(NullReadMessage)
    ensures !data.JNull? ==> (r.Success? <==> AllPass(Checks, data))
    ensures r.Success? ==> r.value == data
    ensures !data.JNull? && r.Failure? ==>
      exists i :: FirstFailure(Checks, i, data) && r.error == Message(Checks[i])
  {
    if data.JNull? then Failure(NullReadMessage)
    else if !Passes(FirstName, data) then
      assert FirstFailure(Checks, 0, data);
      Failure(Message(FirstName))
    else if !Passes(LastName, data) then
      assert FirstFailure(Checks, 1, data);
      Failure(Message(LastName))
    else if !Passes(PhoneNumber, data) then
      assert FirstFailure(Checks, 2, data);
      Failure(Message(PhoneNumber))
    else if !Passes(Address, data) then
      assert FirstFailure(Checks, 3, data);
      Failure(Message(Address))
    else Success(data)
  }

  /** `validatePersonData(JSON.parse(event.body))`: a parse error propagates. */
  function ParseThenValidate(parsed: Result<JsonValue, string>): Result<JsonValue, string>
  {
    match parsed
    case Failure(message) => Failure(message)
    case Success(data) => ValidatePersonData(data)
  }

  /** The method of a REST API event or, when that is missing or empty, of an HTTP API event. */
  function ExtractMethod(event: ApiEvent): Option<string>
  {
    if TruthyText(event.httpMethod) then event.httpMethod
    else match event.requestContext
      case None => None
      case Some(context) =>
        match context.http
        case None => None
        case Some(http) => http.verb
  }

  /**
   * Both event structures are supported: a REST API event's own non-empty
   * `httpMethod` decides whatever its request context holds; an HTTP API
   * event, which has no `httpMethod`, is decided by `requestContext.http.method`;
   * an empty `httpMethod` is falsy and counts as missing; an event with
   * neither gives no method.
   */
  lemma RestAndHttpApiEvents(verb: string, context: Option<RequestContext>, body: Option<string>)
    ensures verb != "" ==> ExtractMethod(ApiEvent(Some(verb), context, body)) == Some(verb)
    ensures ExtractMethod(ApiEvent(None, Some(RequestContext(Some(HttpInfo(Some(verb))))), body)) == Some(verb)
    ensures ExtractMethod(ApiEvent(Some(""), context, body)) == ExtractMethod(ApiEvent(None, context, body))
    ensures ExtractMethod(ApiEvent(None, None, body)) == None
    ensures ExtractMethod(ApiEvent(None, Some(RequestContext(None)), body)) == None
  {
  }

  /**
   * `dynamoItem`: the fresh id, the input's name and phone strings, and an
   * address map with exactly the keys of the input address (an array address
   * contributes its index names); no timestamps.
   */
  function DynamoItem(data: JsonValue, personId: string): (item: StoredItem)
    requires ValidatePersonData(data).Success?
    ensures item.personId == personId
    ensures item.createdAt.None? && item.updatedAt.None?
    ensures Member(data, "firstName") == Some(JStr(item.firstName))
    ensures Member(data, "lastName") == Some(JStr(item.lastName))
    ensures Member(data, "phoneNumber") == Some(JStr(item.phoneNumber))
    ensures Member(data, "address").value.JObj? ==> item.address == Member(data, "address").value.fields
    ensures Member(data, "address").value.JArr? ==>
      item.address.Keys == IndexKeys(|Member(data, "address").value.elems|)
  {
    assert Passes(Checks[3], data);
    StoredItem(
      personId,
      StringOf(data, "firstName"),
      StringOf(data, "lastName"),
      StringOf(data, "phoneNumber"),
      Entries(Member(data, "address").value),
      None,
      None)
  }

  /** The entry of `PutEventsCommand`: the validated input itself is the detail. */
  function PersonCreated(data: JsonValue): BusEvent
  {
    BusEvent(EventSource, EventDetailType, data)
  }

  /** The catch block: always 500, with the error's message. */
  function InternalError(message: string): Response
  {
    Response(500, JObj(map["message" := JStr("Internal server error"), "error" := JStr(message)]))
  }

  const Unsupported: Response := Response(400, JObj(map["message" := JStr("Unsupported method or missing payload")]))

  /** The request is a create: a POST that carries a body. */
  predicate IsCreate(event: ApiEvent)
  {
    ExtractMethod(event) == Some("POST") && TruthyText(event.body)
  }

  /**
   * `handler`. The parse outcome of the body, the fresh id and the outcomes
   * of the three service calls are inputs; `publishRejected` is a normally
   * answered `PutEventsCommand` whose reply reports the entry as failed, a
   * reply the handler does not look at.
   */
  method Handler(
    table: Table, bus: EventBus, event: ApiEvent, parsed: Result<JsonValue, string>, personId: string,
    scanFault: Option<string>, putFault: Option<string>, publishFault: Option<string>,
    publishRejected: bool)
    returns (resp: Response)
    requires table.Valid()
    modifies table, bus
    ensures table.Valid()
    // GET: list the table; any body is ignored and nothing is written or published.
    ensures ExtractMethod(event) == Some("GET") ==>
      && table.items == old(table.items) && bus.events == old(bus.events)
      && (scanFault.Some? ==> resp == InternalError(scanFault.value))
      && (scanFault.None? ==>
            && resp.statusCode == 200
            && exists listing :: IsListing(listing, table.items) && resp.body == JArr(MarshalAll(listing)))
    // A parse or guard failure of a create: 500 and nothing written or published.
    ensures IsCreate(event) && ParseThenValidate(parsed).Failure? ==>
      && resp == InternalError(ParseThenValidate(parsed).error)
      && table.items == old(table.items) && bus.events == old(bus.events)
    // A valid create: put, then publish only if the put succeeded.
    ensures IsCreate(event) && ParseThenValidate(parsed).Success? ==>
      var data := parsed.value;
      && table.items == (if putFault.None? then old(table.items)[personId := DynamoItem(data, personId)] else old(table.items))
      && bus.events == (
        if putFault.None? && publishFault.None? && !publishRejected then old(bus.events) + [PersonCreated(data)]
        else old(bus.events))
      && resp == (
        if putFault.Some? then InternalError(putFault.value)
        else if publishFault.Some? then InternalError(publishFault.value)
        else Response(201, JObj(map["message" := JStr("Item created"), "id" := JStr(personId)])))
    // Any other request: 400 and no service call.
    ensures ExtractMethod(event) != Some("GET") && !IsCreate(event) ==>
      && resp == Unsupported
      && table.items == old(table.items) && bus.events == old(bus.events)
    // Write before publish: an event is only ever seen with its record stored.
    ensures bus.events != old(bus.events) ==>
      && IsCreate(event) && putFault.None? && personId in table.items
      && bus.events == old(bus.events) + [PersonCreated(parsed.value)]
    // The dual write: a failed publish leaves the stored record in place.
    ensures IsCreate(event) && ParseThenValidate(parsed).Success? && putFault.None? && publishFault.Some? ==>
      && table.items == old(table.items)[personId := DynamoItem(parsed.value, personId)]
      && bus.events == old(bus.events)
      && resp.statusCode == 500
    // A rejected entry is not noticed: 201 with the item stored and no event seen.
    ensures IsCreate(event) && ParseThenValidate(parsed).Success? && putFault.None? && publishFault.None? && publishRejected ==>
      && table.items == old(table.items)[personId := DynamoItem(parsed.value, personId)]
      && bus.events == old(bus.events)
      && resp.statusCode == 201
    // 400 is reserved for unsupported requests; guard failures are server errors here.
    ensures resp.statusCode == 400 <==> ExtractMethod(event) != Some("GET") && !IsCreate(event)
    ensures resp.statusCode in {200, 201, 400, 500}
  {
    var requested := ExtractMethod(event);
    if requested == Some("GET") {
      var scanned := table.Scan(scanFault);
      if scanned.Failure? {
        return InternalError(scanned.error);
      }
      return Response(200, JArr(MarshalAll(scanned.value)));
    }
    if requested == Some("POST") && TruthyText(event.body) {
      var validated := ParseThenValidate(parsed);
      if validated.Failure? {
        return InternalError(validated.error);
      }
      var item := DynamoItem(validated.value, personId);
      var putErr := table.Put(item, putFault);
      if putErr.Some? {
        return InternalError(putErr.value);
      }
      var publishErr, _ := bus.Publish(PersonCreated(validated.value), publishFault, publishRejected);
      if publishErr.Some? {
        return InternalError(publishErr.value);
      }
      return Response(201, JObj(map["message" := JStr("Item created"), "id" := JStr(item.personId)]));
    }
    return Unsupported;
  }
}
