/**
 * The guards both versions of `validatePersonData` are built from, and the
 * messages of the errors they throw.
 */
module PersonChecks {
  import opened Wrappers
  import opened JsValues

  /** One guard of the validator. */
  datatype Check = FirstName | LastName | PhoneNumber | Address | AddressFields

  /** The form of the first four guards' messages. */
  function FieldMessage(field: string, kind: string): string
  {
    field + " is required and must be " + kind
  }

  const FirstNameMessage: string := FieldMessage("firstName", "a string")
  const LastNameMessage: string := FieldMessage("lastName", "a string")
  const PhoneNumberMessage: string := FieldMessage("phoneNumber", "a string")
  const AddressMessage: string := FieldMessage("address", "an object")
  const AddressFieldsMessage: string := "All address fields (street, city, province, zipCode, country) are required"

  /** The TypeError Node.js throws when `data.firstName` is read from `null`. */
  const NullReadMessage: string := "Cannot read properties of null (reading '" + "firstName" + "')"

  /** The message of the error a failing guard throws. */
  function Message(c: Check): string
  {
    match c
    case FirstName => FirstNameMessage
    case LastName => LastNameMessage
    case PhoneNumber => PhoneNumberMessage
    case Address => AddressMessage
    case AddressFields => AddressFieldsMessage
  }

  /** The value of a string property that a guard has checked. */
  function StringOf(data: JsonValue, name: string): string
  {
    match Member(data, name)
    case Some(JStr(s)) => s
    case _ => ""
  }

  /**
   * `data[name]` is truthy and of type string: exactly the non-empty strings
   * pass, so an empty string fails like a missing or mistyped field.
   */
  function RequiredString(data: JsonValue, name: string): (ok: bool)
    ensures ok <==> exists s :: Member(data, name) == Some(JStr(s)) && s != ""
  {
    var v := Member(data, name);
    Truthy(v) && TypeOf(v) == "string"
  }

  /**
   * `data[name]` is truthy and of type object: exactly the objects and the
   * arrays pass (null is of type object but falsy).
   */
  function RequiredObject(data: JsonValue, name: string): (ok: bool)
    ensures ok <==> Member(data, name).Some? && (Member(data, name).value.JObj? || Member(data, name).value.JArr?)
  {
    var v := Member(data, name);
    Truthy(v) && TypeOf(v) == "object"
  }

  /** `data.address[field]`, or `undefined` when there is no address. */
  function AddressMember(data: JsonValue, field: string): Option<JsonValue>
  {
    match Member(data, "address")
    case Some(address) => Member(address, field)
    case None => None
  }

  /**
   * All five address fields are truthy; their types are not looked at. Only
   * an address that is an object can pass.
   */
  function AddressComplete(data: JsonValue): (ok: bool)
    ensures ok ==> Member(data, "address").Some? && Member(data, "address").value.JObj?
  {
    && Truthy(AddressMember(data, "street"))
    && Truthy(AddressMember(data, "city"))
    && Truthy(AddressMember(data, "province"))
    && Truthy(AddressMember(data, "zipCode"))
    && Truthy(AddressMember(data, "country"))
  }

  /** Whether `data` passes guard `c`. */
  predicate Passes(c: Check, data: JsonValue)
  {
    match c
    case FirstName => RequiredString(data, "firstName")
    case LastName => RequiredString(data, "lastName")
    case PhoneNumber => RequiredString(data, "phoneNumber")
    case Address => RequiredObject(data, "address")
    case AddressFields => AddressComplete(data)
  }

  ghost predicate AllPass(checks: seq<Check>, data: JsonValue)
  {
    forall i :: 0 <= i < |checks| ==> Passes(checks[i], data)
  }

  /** Guard `i` is the first of `checks` that `data` fails. */
  ghost predicate FirstFailure(checks: seq<Check>, i: int, data: JsonValue)
  {
    && 0 <= i < |checks|
    && !Passes(checks[i], data)
    && forall j :: 0 <= j < i ==> Passes(checks[j], data)
  }

  lemma FieldMessageSaysRequired(field: string, kind: string)
    ensures Includes(FieldMessage(field, kind), "required")
  {
    assert FieldMessage(field, kind) == (field + " is ") + "required" + (" and must be " + kind);
    IncludesBetween(field + " is ", "required", " and must be " + kind);
  }

  lemma AddressFieldsMessageSaysRequired()
    ensures Includes(AddressFieldsMessage, "required")
  {
    var prefix := "All address fields (street, city, province, zipCode, country) are ";
    assert AddressFieldsMessage == prefix + "required" + "";
    IncludesBetween(prefix, "required", "");
  }

  /** Every guard's message contains "required". */
  lemma MessageSaysRequired(c: Check)
    ensures Includes(Message(c), "required")
  {
    match c
    case FirstName => FieldMessageSaysRequired("firstName", "a string");
    case LastName => FieldMessageSaysRequired("lastName", "a string");
    case PhoneNumber => FieldMessageSaysRequired("phoneNumber", "a string");
    case Address => FieldMessageSaysRequired("address", "an object");
    case AddressFields => AddressFieldsMessageSaysRequired();
  }

  /** The TypeError for a `null` payload does not contain "required". */
  lemma NullReadMessageLacksRequired()
    ensures !Includes(NullReadMessage, "required")
  {
    assert 'q' !in "Cannot read properties of null (reading '";
    assert 'q' !in "firstName" && 'q' !in "')";
    assert "required"[2] == 'q';
    MissingCharExcludes(NullReadMessage, "required", 2);
  }
}
