# Person service request handling, modelled in Dafny

This project models the request-handling logic of the person-registration Lambda. The source has two versions of it, and each is modelled on its own.

- **`lambda/person-lambda.ts`** (module `PersonLambdaTs`). Its validator is strict: the three name and phone guards, the address guard, and a truthiness guard over the five address fields. Its handler treats every request with a body as a create. It stores a record whose `createdAt` equals its `updatedAt`. It then publishes a `person-service` / `Person Created` event. Every thrown error becomes 400 if its message contains `"required"` and 500 otherwise.
- **`lambda/person-lambda.js`** (module `PersonLambdaJs`). Its validator has four guards and never looks inside the address. Its handler dispatches on the method. GET lists the table. POST with a body stores an item without timestamps and publishes a `com.example.person` / `PersonCreated` event whose detail is the input. Any other request gets 400. Every thrown error, validation errors included, becomes 500.

The shared modules are:

- `JsValues`: the values `JSON.parse` produces. It defines JavaScript truthiness, `typeof`, property reads, `String.prototype.includes`, and `Object.fromEntries(Object.entries(...))` for objects and arrays. An array's entries are keyed by their decimal index names, and these names are proved injective.
- `Http`: the API Gateway event and the response.
- `Store`: the DynamoDB table, a class over a map keyed by `personId`. `Put` is an unconditional put. `Scan` returns every record once, in no fixed order.
- `Bus`: the EventBridge bus, a class over the sequence of accepted events.
- `PersonChecks`: the guards and their messages.
- `Variants`: how the two validators relate.
- `Scenarios`: three client scenarios: the registration of Ada Lovelace followed by a listing, a create whose publish throws, and a create whose event entry the bus rejects in a normal reply.

The collaborators become inputs of the handler methods:
- the outcome of `JSON.parse`, as `Result<JsonValue, string>`, so that a parse error keeps its message;
- the fresh `uuidv4()` id and the `new Date().toISOString()` reading;
- for each service call (`PutItemCommand`, `PutEventsCommand`, `ScanCommand`), an optional fault carrying the thrown message. A faulted call changes nothing;
- whether a normally answered `PutEventsCommand` reports its entry as failed (`FailedEntryCount` 1). Neither handler reads that reply.

Some consequences of the code as written:
- In the TypeScript version, a JSON `null` body fails at `data.firstName` with a TypeError whose message lacks `"required"`, so it gets 500, not 400.
- In the same version, a parse or service error whose message happens to contain `"required"` gets 400.
- In the JavaScript version, validation failures are 500.
- A missing body in the TypeScript version answers `{error: 'Request body is required'}`, not `{message}`.
- Address sub-fields are checked for truthiness only (TypeScript) or not at all (JavaScript), and an array passes the `typeof === 'object'` guard.
- The TypeScript event detail and 201 body carry `createdAt` but not `updatedAt`, and the whole input address, extra keys included. The stored record carries only the five address fields.
- The JavaScript event detail is the validated input, without id or timestamps. Its 201 body is only `{message: 'Item created', id}`.

## Model

| member | source | states |
|---|---|---|
| `PersonLambdaTs.ValidatePersonData` | lambda/person-lambda.ts:22-42 | A `null` payload fails with the TypeError message. Otherwise the result is a success exactly when all five guards pass, in the order firstName, lastName, phoneNumber, address, address fields. A failure carries the message of the first guard that fails. A success returns the input unchanged. |
| `PersonChecks.RequiredString` | lambda/person-lambda.ts:23-31 | A name or phone guard passes exactly when the property is a non-empty string, so an empty string fails just like a missing or non-string value. |
| `PersonChecks.RequiredObject` | lambda/person-lambda.ts:32-34 | The address guard passes exactly when the address is an object or an array. `null` is excluded although its `typeof` is "object". |
| `PersonChecks.AddressComplete` | lambda/person-lambda.ts:36-39 | Only the truthiness of street, city, province, zipCode and country is checked, not their type. Only an address that is an object can pass. |
| `PersonChecks.MessageSaysRequired` | lambda/person-lambda.ts:24-38 | The message of every guard contains "required". |
| `PersonChecks.NullReadMessageLacksRequired` | lambda/person-lambda.ts:23 | The TypeError thrown by reading `firstName` from `null` does not contain "required". |
| `PersonLambdaTs.ValidationFailureIsClientError` | lambda/person-lambda.ts:126-131 | Every guard failure of a non-null payload is mapped to status 400. |
| `PersonLambdaTs.NullPayloadIsServerError` | lambda/person-lambda.ts:61 | A body that parses to `null` is mapped to status 500. |
| `PersonLambdaTs.PersonItem` | lambda/person-lambda.ts:62-85 | The stored item is keyed by the fresh id. It carries the input's three strings and exactly the five address fields with the input's values. `createdAt == updatedAt ==` the timestamp. |
| `PersonLambdaTs.EventDetail` | lambda/person-lambda.ts:90-97 | The detail has exactly the keys personId, firstName, lastName, phoneNumber, address and createdAt (no updatedAt). The address is the whole input address. |
| `PersonLambdaTs.Handler` | lambda/person-lambda.ts:44-140 | No body gives 400 `{error: 'Request body is required'}` with no store or bus effect. A parse or guard failure touches nothing and gets the catch response; a guard failure on a non-null payload gets 400, a `null` payload 500. A valid payload puts exactly one record under the fresh id, then publishes the `person-service` / `Person Created` event only if the put succeeded, then answers 201 with `message` plus the detail. An event is only ever published with its record stored. A publish that throws leaves the record stored and answers a non-201 status. A publish whose entry is rejected in a normal reply still answers 201, with the record stored and no event on the bus. |
| `PersonLambdaJs.ValidatePersonData` | lambda/person-lambda.js:11-25 | The same ordered first-failure contract over the four guards firstName, lastName, phoneNumber and address. The address fields are not checked. A success returns the input unchanged. |
| `PersonLambdaJs.RestAndHttpApiEvents` | lambda/person-lambda.js:32-33 | About `PersonLambdaJs.ExtractMethod`, which models js:33: both event structures are supported. A REST API event's non-empty `httpMethod` is its method, whatever its request context holds. An HTTP API event without `httpMethod` takes the method of `requestContext.http`. An empty `httpMethod` counts as missing. An event with neither has no method. |
| `PersonLambdaJs.DynamoItem` | lambda/person-lambda.js:49-55 | The item is keyed by the fresh id, has no timestamps and carries the input's three strings. Its address map equals an object address's properties. For an array address, its keys are the index names. |
| `PersonLambdaJs.Handler` | lambda/person-lambda.js:27-96 | GET is checked before the body and changes nothing. It answers 500 on a scan fault. Otherwise it answers 200 with a body that lists every stored record exactly once. A POST with a body validates, then puts one item under the fresh id. It then publishes a `com.example.person` / `PersonCreated` event with the input as detail, only if the put succeeded. It then answers 201 `{message: 'Item created', id}`. Every parse, guard, put or publish error answers 500 `{message: 'Internal server error', error}`. Any other request answers 400 `{message: 'Unsupported method or missing payload'}` with no effect. Status 400 occurs exactly for those requests. Publishing implies the record is stored, and a publish that throws leaves it stored. A publish whose entry is rejected in a normal reply still answers 201, with the item stored and no event on the bus. |
| `Store.Table.Put` | lambda/person-lambda.ts:87 | Without a fault, the table maps the item's id to the item and every other entry is unchanged. With a fault, nothing changes and the fault's message is returned. |
| `Store.Table.Scan` | lambda/person-lambda.js:36-37 | Without a fault, the result lists the table: every element is a stored record, no id appears twice, every stored id appears, and its length equals the table's size. With a fault, the result is that error. |
| `Bus.EventBus.Publish` | lambda/person-lambda.ts:99-110 | A call that throws changes nothing and returns the fault's message. A normal reply whose entry was rejected changes nothing and reports one failed entry. Otherwise the event is appended to the events seen so far and no entry failed. |
| `JsValues.Entries` | lambda/person-lambda.js:54 | For an object, `Object.entries` then `Object.fromEntries` gives back its properties. For an array, it gives exactly the index names as keys, each holding its element. |
| `JsValues.ArrayEntriesCorrect` | lambda/person-lambda.js:54 | An array's entries map has exactly the index names of the array as keys, and each name holds the element at that index. |
| `Variants.StrictRefinesLenient` | lambda/person-lambda.ts:36-39 | The TypeScript validator accepts only what the JavaScript one accepts. Where the JavaScript one fails, the TypeScript one fails with the same message. They differ exactly on payloads that pass the four shared guards but whose address is incomplete. |
| `Variants.LenientAcceptsIncompleteAddress` | lambda/person-lambda.js:21-24 | Some payload (an empty address object) passes the JavaScript validator and fails the TypeScript one with the address-fields message. |
| `Variants.LenientStoresArrayAddressByIndex` | lambda/person-lambda.js:54 | An address given as a one-element array passes the JavaScript validator. It is stored as the map `{"0": street}`, and the TypeScript validator rejects it. |

## Left out

- The AWS SDK clients are modelled only by their effect on the table and the bus, with an injected fault. A faulted call has no effect. A put that succeeds but whose reply is lost is not modelled.
- `uuidv4()`, the clock and `JSON.parse` are inputs. Uniqueness of ids is not enforced, and a repeated id overwrites the stored record, as an unconditional put does.
- `JSON.stringify` of response bodies and event details: bodies and details are structured values.
- HTTP headers and CORS, `console.log`/`console.error`, `process.env` lookups (table and bus names), and async scheduling, timeouts and concurrency are not modelled.
- A single DynamoDB Scan call returns at most one page of results, and the JavaScript handler does not follow `LastEvaluatedKey`. `Store.Table.Scan` returns every record.
- DynamoDB's rejection of a string attribute whose value is not a string is not modelled. This happens when a truthy non-string address field passes in the TypeScript version, or for any address value in the JavaScript version. Such a rejection is covered only as an injected put fault.
- The key schema declared for the table in lib/person-data-stack.ts (partition key `id`, sort key `createdAt`) is not part of this model. Records are keyed by the `personId` the handlers write.
- Thrown values without a `message` are not modelled. Every error in the model carries a message string.
- JSON numbers are modelled as reals, so the only falsy number is zero.
- Property reads are modelled only for the names the handlers read. None of these names is a property of a string, number, boolean or array.
- The CDK stacks under lib/ and bin/, and test/person-service.test.ts, hold no request logic and are not part of this model.
