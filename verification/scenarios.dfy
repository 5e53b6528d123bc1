/** Client scenarios for both handlers, each starting from an empty table and bus. */
module Scenarios {
  import opened Wrappers
  import opened JsValues
  import opened Http
  import opened Store
  import opened Bus
  import opened PersonChecks
  import Ts = PersonLambdaTs
  import Js = PersonLambdaJs

  function AdaLovelace(): JsonValue
  {
    JObj(map[
      "firstName" := JStr("Ada"),
      "lastName" := JStr("Lovelace"),
      "phoneNumber" := JStr("555-0100"),
      "address" := JObj(map[
        "street" := JStr("1 Main St"),
        "city" := JStr("London"),
        "province" := JStr("LDN"),
        "zipCode" := JStr("E1 6AN"),
        "country" := JStr("UK")])])
  }

  /** A create through the lenient handler, then a listing that includes the new record. */
  method CreateThenList(body: string, id: string)
    requires body != ""
  {
    var table := new Table();
    var bus := new EventBus();
    var data := AdaLovelace();
    assert Js.ValidatePersonData(data).Success? by {
      assert Passes(FirstName, data) && Passes(LastName, data) && Passes(PhoneNumber, data) && Passes(Address, data);
    }
    var post := ApiEvent(Some("POST"), None, Some(body));
    var created := Js.Handler(table, bus, post, Success(data), id, None, None, None, false);
    assert created.statusCode == 201;
    assert table.items == map[id := Js.DynamoItem(data, id)];
    assert bus.events == [BusEvent("com.example.person", "PersonCreated", data)];

    // The HTTP API form of a GET, with a body that is ignored.
    var get := ApiEvent(None, Some(RequestContext(Some(HttpInfo(Some("GET"))))), Some(body));
    var listed := Js.Handler(table, bus, get, Success(data), "unused", None, None, None, false);
    assert listed.statusCode == 200;
    ghost var listing: seq<StoredItem> :| IsListing(listing, table.items) && listed.body == JArr(MarshalAll(listing));
    assert id in PersonIds(listing);
    ghost var i :| 0 <= i < |listing| && listing[i].personId == id;
    assert listed.body.elems[i] == Marshal(Js.DynamoItem(data, id));
  }

  /** A create through the strict handler whose publish fails: the record stays, no event is seen. */
  method CreateWithFailedPublish(body: string, id: string, now: string, busError: string)
    requires body != ""
  {
    var table := new Table();
    var bus := new EventBus();
    var data := AdaLovelace();
    assert Ts.ValidatePersonData(data).Success? by {
      assert Passes(FirstName, data) && Passes(LastName, data) && Passes(PhoneNumber, data);
      assert Passes(Address, data) && Passes(AddressFields, data);
    }
    var resp := Ts.Handler(table, bus, ApiEvent(None, None, Some(body)), Success(data), id, now, None, Some(busError), false);
    assert resp.statusCode != 201;
    assert id in table.items && table.items[id].createdAt == table.items[id].updatedAt == Some(now);
    assert bus.events == [];
  }

  /** A create through the lenient handler whose event entry is rejected in a normal reply: 201, the item stays, no event is seen. */
  method CreateWithRejectedEntry(body: string, id: string)
    requires body != ""
  {
    var table := new Table();
    var bus := new EventBus();
    var data := AdaLovelace();
    assert Js.ValidatePersonData(data).Success? by {
      assert Passes(FirstName, data) && Passes(LastName, data) && Passes(PhoneNumber, data) && Passes(Address, data);
    }
    var post := ApiEvent(None, Some(RequestContext(Some(HttpInfo(Some("POST"))))), Some(body));
    var resp := Js.Handler(table, bus, post, Success(data), id, None, None, None, true);
    assert resp.statusCode == 201;
    assert table.items == map[id := Js.DynamoItem(data, id)];
    assert bus.events == [];
  }
}
