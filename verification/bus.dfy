/**
 * The EventBridge bus the handlers publish to with `PutEventsCommand`. A
 * failure of the service call is an injected fault carrying its message; a
 * call that is answered normally may still report its one entry as failed.
 */
module Bus {
  import opened Wrappers
  import opened JsValues

  /** One entry of `PutEventsCommand`: its Source, DetailType and Detail (before serialization). */
  datatype BusEvent = BusEvent(source: string, detailType: string, detail: JsonValue)

  /** The events the bus has accepted, oldest first. */
  class EventBus {
    var events: seq<BusEvent>

    constructor ()
      ensures events == []
    {
      events := [];
    }

    /**
     * A single attempt with one entry. A thrown fault returns its message and
     * nothing is accepted. Otherwise the call is answered normally, and the
     * reply's `FailedEntryCount` is 1 when the service rejected the entry
     * (nothing is accepted) and 0 when the event was appended.
     */
    method Publish(e: BusEvent, fault: Option<string>, entryRejected: bool)
      returns (err: Option<string>, failedEntryCount: nat)
      modifies this
      ensures err == fault
      ensures failedEntryCount == (if fault.None? && entryRejected then 1 else 0)
      ensures events == if fault.None? && !entryRejected then old(events) + [e] else old(events)
    {
      err := fault;
      failedEntryCount := 0;
      if fault.None? {
        if entryRejected {
          failedEntryCount := 1;
        } else {
          events := events + [e];
        }
      }
    }
  }
}
