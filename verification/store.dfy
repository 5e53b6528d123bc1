/**
 * The DynamoDB table the handlers write person records to, reached through
 * `PutItemCommand` and `ScanCommand`. A failure of the service call is an
 * injected fault carrying the error message the SDK would throw.
 */
module Store {
  import opened Wrappers
  import opened JsValues

  /**
   * A stored person record. The address attribute is a map of attribute
   * names to the values sent as strings; the timestamps are absent when the
   * writer did not set them.
   */
  datatype StoredItem = StoredItem(
    personId: string,
    firstName: string,
    lastName: string,
    phoneNumber: string,
    address: map<string, JsonValue>,
    createdAt: Option<string>,
    updatedAt: Option<string>)

  /** A string attribute `{ S: v }`. */
  function S(v: JsonValue): JsonValue
  {
    JObj(map["S" := v])
  }

  /** The record in DynamoDB's attribute-value JSON, as a `Scan` returns it in `Items`. */
  function Marshal(item: StoredItem): JsonValue
  {
    var address := map k | k in item.address :: S(item.address[k]);
    var base := map[
      "personId" := S(JStr(item.personId)),
      "firstName" := S(JStr(item.firstName)),
      "lastName" := S(JStr(item.lastName)),
      "phoneNumber" := S(JStr(item.phoneNumber)),
      "address" := JObj(map["M" := JObj(address)])];
    var withCreated := if item.createdAt.Some? then base["createdAt" := S(JStr(item.createdAt.value))] else base;
    JObj(if item.updatedAt.Some? then withCreated["updatedAt" := S(JStr(item.updatedAt.value))] else withCreated)
  }

  function MarshalAll(items: seq<StoredItem>): seq<JsonValue>
  {
    seq(|items|, i requires 0 <= i < |items| => Marshal(items[i]))
  }

  ghost function PersonIds(s: seq<StoredItem>): set<string>
  {
    set i | 0 <= i < |s| :: s[i].personId
  }

  lemma PersonIdsAppend(s: seq<StoredItem>, x: StoredItem)
    ensures PersonIds(s + [x]) == PersonIds(s) + {x.personId}
  {
    var t := s + [x];
    assert forall i :: 0 <= i < |s| ==> t[i] == s[i];
    assert t[|s|] == x;
  }

  /**
   * `s` lists the table's records in some order: every element is a stored
   * record, no record appears twice, and every record appears.
   */
  ghost predicate IsListing(s: seq<StoredItem>, items: map<string, StoredItem>)
  {
    && (forall i :: 0 <= i < |s| ==> s[i].personId in items && items[s[i].personId] == s[i])
    && (forall i, j :: 0 <= i < j < |s| ==> s[i].personId != s[j].personId)
    && PersonIds(s) == items.Keys
  }

  /** The table: records keyed by their `personId` attribute. */
  class Table {
    var items: map<string, StoredItem>

    ghost predicate Valid()
      reads this
    {
      forall k :: k in items ==> items[k].personId == k
    }

    constructor ()
      ensures Valid() && items == map[]
    {
      items := map[];
    }

    /**
     * `PutItemCommand`: an unconditional put that replaces any record with
     * the same key; on a fault nothing is written and the error is returned.
     */
    method Put(item: StoredItem, fault: Option<string>) returns (err: Option<string>)
      requires Valid()
      modifies this
      ensures Valid()
      ensures err == fault
      ensures items == if fault.None? then old(items)[item.personId := item] else old(items)
    {
      err := fault;
      if fault.None? {
        items := items[item.personId := item];
      }
    }

    /** `ScanCommand`: every record once, in no particular order, or the fault. */
    method Scan(fault: Option<string>) returns (r: Result<seq<StoredItem>, string>)
      requires Valid()
      ensures fault.Some? ==> r == Failure(fault.value)
      ensures fault.None? ==> r.Success? && IsListing(r.value, items) && |r.value| == |items|
    {
      if fault.Some? {
        return Failure(fault.value);
      }
      var rest := items.Keys;
      var listed: seq<StoredItem> := [];
      while rest != {}
        invariant rest <= items.Keys
        invariant forall i :: 0 <= i < |listed| ==> listed[i].personId in items && items[listed[i].personId] == listed[i]
        invariant forall i :: 0 <= i < |listed| ==> listed[i].personId !in rest
        invariant forall i, j :: 0 <= i < j < |listed| ==> listed[i].personId != listed[j].personId
        invariant PersonIds(listed) == items.Keys - rest
        invariant |listed| + |rest| == |items|
        decreases rest
      {
        var k :| k in rest;
        PersonIdsAppend(listed, items[k]);
        listed := listed + [items[k]];
        rest := rest - {k};
      }
      return Success(listed);
    }
  }
}
