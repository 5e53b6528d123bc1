/** How the two validators relate: the strict one only ever adds the address-fields guard. */
module Variants {
  import opened Wrappers
  import opened JsValues
  import opened PersonChecks
  import Ts = PersonLambdaTs
  import Js = PersonLambdaJs

  /**
   * A payload the strict validator accepts is accepted by the lenient one, and
   * where the lenient one fails the strict one fails with the same message.
   */
  lemma StrictRefinesLenient(data: JsonValue)
    ensures Ts.ValidatePersonData(data).Success? ==> Js.ValidatePersonData(data).Success?
    ensures Js.ValidatePersonData(data).Failure? ==> Ts.ValidatePersonData(data) == Js.ValidatePersonData(data)
    ensures Js.ValidatePersonData(data).Success? && Ts.ValidatePersonData(data).Failure? <==>
      !data.JNull? && AllPass(Js.Checks, data) && !AddressComplete(data)
  {
  }

  /** An empty address object passes the lenient validator and fails the strict one. */
  lemma LenientAcceptsIncompleteAddress()
    ensures exists data ::
      && Js.ValidatePersonData(data).Success?
      && Ts.ValidatePersonData(data) == Failure(AddressFieldsMessage)
  {
    var data := JObj(map[
      "firstName" := JStr("Ada"),
      "lastName" := JStr("Lovelace"),
      "phoneNumber" := JStr("555-0100"),
      "address" := JObj(map[])]);
    assert Passes(FirstName, data) && Passes(LastName, data) && Passes(PhoneNumber, data) && Passes(Address, data);
    assert !Passes(AddressFields, data);
    assert Js.ValidatePersonData(data).Success?;
    assert Ts.ValidatePersonData(data) == Failure(AddressFieldsMessage);
  }

  /** An address given as an array passes the lenient validator and is stored under index names. */
  lemma LenientStoresArrayAddressByIndex(personId: string)
    ensures
      var data := JObj(map[
        "firstName" := JStr("Ada"),
        "lastName" := JStr("Lovelace"),
        "phoneNumber" := JStr("555-0100"),
        "address" := JArr([JStr("1 Main St")])]);
      && Js.ValidatePersonData(data).Success?
      && Js.DynamoItem(data, personId).address == map["0" := JStr("1 Main St")]
      && Ts.ValidatePersonData(data) == Failure(AddressFieldsMessage)
  {
  }
}
